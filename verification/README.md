# ZeOS kernel and FAT32 driver: a verified model

This project models two parts of the ZeOS teaching kernel and proves what they are for.

**The process kernel** (`zeos_full/sched.c`, `sem.c`, `list.c`, `mm.c`, `utils.c` and the process calls of `sys.c`) is
one state machine. System calls and clock ticks run with interrupts off, so each is one atomic step.

* `Lists` holds the intrusive doubly linked lists: nodes are indices into the arrays `next` and `prev`, and the ghost
  map `lists` gives the sequence on every initialised head.
* `Tasks` and `Space` give every call as a step function on sequences; `TasksInv` and `SpaceInv` hold the invariants and
  show that each step keeps them; `Kernel` puts both together (`State`, `Op`, `Step`, `Exec`), and `Boot` is the state
  when the first process starts.
* `Processes`, `MemoryManager` and `Machine` are classes over the real data (link arrays, control blocks, semaphore
  table, frame map, page tables, memory). Every method follows its C function statement by statement and ensures that
  the new abstract state is the one of the step function.
* `SlotViews` and `SlotTraces` describe a run by its events (arrive, dispatch, block, wake, post, destroy, resume ...)
  as one semaphore slot sees them; `KernelLaws`, `SchedulingLaws` and `MemoryLaws` prove the laws of
  whole runs, `ProcessCalls` and `SemaphoreCalls` say what each call answers, `QueueEffects` and `MemoryEffects` what it
  makes of every field, `Access` which pointers are accepted; `TeardownExample` is one concrete run from boot.

A task that was switched out inside `sem_wait` carries the slot it waits on in its control block (`wait`); when it is
dispatched, the rest of `sem_wait` (sem.c:75-79) belongs to the same step, because nothing can come in between.

**The FAT32 driver** (`file-system/fat32.c`): `FatChains` has the table in memory with `allocateCluster` and
`deleteFATchain`, `FatData` has `readFile` and `writeFile` over a disk of 512-byte sectors and that table,
`FatDataLaws` and `FatDataLimits` say when they transfer the right bytes and what else they change, and `Paths` relates
`split_filename` to `extractFilename`. The disk may be smaller than the table: a file needs only the sectors of its own
clusters.

Where code and comments disagree, the code is modelled:

* `sem_wait` returns -1 when it passes at once, 0 after a wake-up, and -2 when the semaphore was destroyed meanwhile.
* `extractFilename` with position 0 delivers blanks, not `"/          "` (`Paths.ExtractRoot`).
* The tests at fat32.c:445 and 526 are called "remaining sectors in the cluster" but allow one sector too many, and
  `writeFile` never sets its counter back. The exact consequences, for every range inside a file, are
  `FatDataLaws.ReadIff` and `FatDataLaws.WriteIff`.
* `access_ok` has a stricter test for writing, but when that fails it falls through to the test for reading, so both
  accept the same addresses (`Access.AccessIff`).
* The table in memory has 2048 entries "to snap to the closest whole cluster number"; the disk of `diskStartup.sh` has
  the clusters 2 to 1245 (`FatDataLaws.StartupDisk`), and when they are used up `allocateCluster` hands out the ones
  behind the end of the disk (`FatDataLaws.StartupDiskOverrun`).
* `whereClusters` is called a hint, but clusters below it are never found again (`FatChains.FullThoughFreeIff`).

Results that need an exact condition because the plain statement fails:

* Of the tasks that leave a destroyed semaphore, the first ones get the failure, not the ones that were destroyed:
  `KernelLaws.TeardownExact` gives the condition, `TeardownExample.SignalledWaiterFails` a run from boot.
* A fork that runs out of frames gives all of them back exactly if frame 256 was in use (`SpaceInv.RollbackIff`); it
  always is, and frames never run out (`MemoryLaws.FrameOwnership`, `MemoryLaws.ForkFailsIff`).
* `copy_data` is a byte-by-byte copy exactly if the destination does not start one to three bytes above the source, or
  the size is at most 4 (`CopyData.ByteCopyIff`).
* Deleting a chain from one of its clusters keeps the table well formed exactly if nothing links to that cluster
  (`FatChains.DeleteWellFormed`).
* Writing leaves the copies of the table on the disk alone exactly if they fit into two clusters
  (`FatDataLaws.TableKeptIff`), and `getDiskSector` is the sector of the on-disk format exactly if they fill two clusters
  (`FatData.DataRegionIff`; section "FAT Data Structure" of Microsoft's "FAT: General Overview of On-Disk Format").
* The directory that `split_filename` makes ends where it should exactly if the path has two components or more and the
  buffer held no `/` right behind the last character written (`Paths.SplitIff`); for a path of one component it still
  has that component (`Paths.OneComponent`).
* `split_filename` writes exactly the first 12 bytes of the buffer for the name, or as many as the longest name has
  (`Paths.FilenameReach`). Both callers pass `char filename[11]` (sys.c:227 and 317), so it always writes behind it; in
  the model `filename` is that buffer together with the memory behind it.
* What is written and then read back is the data exactly for the ranges of `FatDataLimits.Recovered`. These are more than
  those on which the bytes are in the file: `FatDataLimits.Astray` is a transfer that comes back from a foreign sector.
* A write leaves everything outside its file alone exactly if it does not reach the sector behind its cluster, or the
  cluster that follows on the disk is in the file too (`FatDataLimits.WriteOutsideIff`, `WriteForeignIff`).

`dafny verify dfyconfig.toml` checks the project.

## Model

| member | source | states |
|---|---|---|
| Lists.InsertLinked | zeos_full/list.c:18-26 | linking an unqueued anchor between two neighbours of a list leaves every list a well-formed circle, all anchors on at most one list, unqueued anchors null |
| Lists.RemoveLinked | zeos_full/list.c:62-79 | the same for cutting a queued anchor out |
| Lists.Links.InitListHead | zeos_full/list.c:6-10 | an empty list appears, all others keep their sequences |
| Lists.Links.InsertBetween | zeos_full/list.c:18-26 | the four assignments give exactly the spliced link arrays |
| Lists.Links.ListAdd | zeos_full/list.c:36-39 | the sequence of the head grows in front, every other list keeps its sequence |
| Lists.Links.ListAddTail | zeos_full/list.c:50-53 | the sequence of the head grows at its end |
| Lists.Links.ListDel | zeos_full/list.c:74-79 | the entry leaves its list, is on no list, and has null links |
| Lists.Links.ListEmpty | zeos_full/list.c:96-99 | answers whether the sequence is empty |
| Processes.Processes.constructor | zeos_full/system.c:90-95 | after init_sched, init_idle and init_task1 the real data represent the boot state |
| Processes.Processes.InitSched | zeos_full/sched.c:145-159 | the free queue holds all control blocks in falling order, the ready queue is empty, no slot is in use |
| Processes.Processes.InitializeSem | zeos_full/sem.c:17-26 | every slot is unused with the dead identifier |
| Processes.Processes.InitIdle | zeos_full/sched.c:74-97 | the first free block becomes the idle task with the next pid |
| Processes.Processes.InitTask1 | zeos_full/sched.c:99-134 | the next free block becomes the running process with a full quantum |
| Processes.Processes.UpdateProcessState | zeos_full/sched.c:289-295 | the task leaves the list it is on, if any, and joins the end of the other one unless it is the idle task |
| Processes.Processes.SchedNext | zeos_full/sched.c:297-309 | queues, current task and quantum become those of the abstract dispatch, and if the task was blocked the answer is what its sem_wait returns |
| Processes.Processes.Resume | zeos_full/sem.c:74-81 | a task that runs again counts a draining slot up and gets -2, or gets 0 |
| Processes.Processes.Tick | zeos_full/sched.c:263-270 | a tick on the real lists is the abstract tick, with the answer of a wait that it resumes |
| Processes.Processes.UpdateSchedData | zeos_full/sched.c:272-274 | only the rest of the quantum changes |
| Processes.Processes.NeedsSched | zeos_full/sched.c:276-287 | answers whether the quantum is used up or the idle task has somebody to give way to; otherwise the idle quantum restarts |
| Processes.Processes.GetSemafor | zeos_full/sem.c:28-37 | the loop finds the first slot with the identifier, or -1 |
| Processes.Processes.GetFreeSemafor | zeos_full/sem.c:39-47 | the loop finds the first slot with used == 0, or -1 |
| Processes.Processes.SemInit | zeos_full/sem.c:49-61 | table, heads and answer are those of the abstract call |
| Processes.Processes.SemWait | zeos_full/sem.c:63-82 | table, queues and immediate answer are those of the abstract call, and when the caller blocks, the second answer is what the resumed task gets |
| Processes.Processes.SemSignal | zeos_full/sem.c:84-101 | table, queues and answer are those of the abstract call |
| Processes.Processes.WakeAll | zeos_full/sem.c:111-116 | the pointer loop over a list that is taken apart while it runs ends, empties the list, appends its nodes in order to the ready queue, and lowers used by their number |
| Processes.Processes.InternalDestroy | zeos_full/sem.c:103-118 | two error answers, or the whole slot drained |
| Processes.Processes.SemDestroy | zeos_full/sem.c:119-124 | lookup by identifier, then the above |
| Processes.Processes.DestroyOwned | zeos_full/sem.c:126-136 | the loop drains every live slot of the pid, one after the other |
| Processes.Processes.Exit | zeos_full/sys.c:462-465 | the caller's semaphores are destroyed before its pid is cleared; its block joins the free queue; a wait that is resumed gets its answer |
| Processes.Processes.Spawn | zeos_full/sys.c:392-440 | the first free block becomes a copy of the caller's with the next pid and joins the ready queue |
| Processes.Processes.CopyPcb | zeos_full/sys.c:395 | copying the whole block, anchor included, leaves every list as it was, because the caller's anchor is null |
| Processes.OffLists | zeos_full/sched.c:289-291 | the running task is on no list, so the list_del of update_process_state_rr is skipped for it |
| CopyData.CopyBytes | zeos_full/utils.c:6-20 | the word loop and the byte loop compute the word copy followed by the byte copy, for every size |
| CopyData.CopiedIsByteCopy | zeos_full/utils.c:6-20 | that equals one byte-by-byte copy unless the destination starts less than a word above the source |
| CopyData.BlockMove | zeos_full/utils.c:6-20 | between disjoint regions exactly the block is moved and nothing else changes |
| CopyData.ByteCopyIff | zeos_full/utils.c:6-20 | for all memories equal to the byte-by-byte copy if and only if size <= 4 or the regions are not offset by 1 to 3 bytes upwards |
| MemoryManager.Memory.constructor | zeos_full/mm.c:131-139 | frame map, page tables and counters after initialisation are those of the boot state |
| MemoryManager.Memory.InitTablePages | zeos_full/mm.c:55-73 | every table maps the kernel pages but page 0, and nothing else |
| MemoryManager.Memory.InitFrames | zeos_full/mm.c:195-207 | exactly the kernel frames are used |
| MemoryManager.Memory.SetUserPages | zeos_full/mm.c:78-103 | for every frame map, frame map and page table are those of allocating for the code and data pages one after the other; other tables keep their entries |
| MemoryManager.TakenPages | zeos_full/mm.c:78-103 | as long as frames can be taken, page i of code and data gets the i-th frame taken, present, for programs, and writable only for data; no other entry changes |
| MemoryManager.FreshPages | zeos_full/mm.c:78-103 | on the frame map of a fresh kernel these are the even frames from 256 on |
| MemoryManager.Memory.AllocFrame | zeos_full/mm.c:211-224 | the first free frame among 256, 258, ... is taken, or -1 and nothing changes |
| MemoryManager.Memory.FreeFrame | zeos_full/mm.c:239-243 | the frame becomes free if it is above 256 |
| MemoryManager.Memory.SetSsPag | zeos_full/mm.c:246-254 | exactly one entry changes; the page is present, writable and for programs, in that frame |
| MemoryManager.Memory.DelSsPag | zeos_full/mm.c:257-260 | exactly one entry becomes absent |
| MemoryManager.Memory.FreeUserPages | zeos_full/mm.c:226-235 | the frames of all data pages are freed and their entries cleared, round by round |
| MemoryManager.Memory.AllocateDir | zeos_full/sched.c:51-62 | the first directory with counter 0 is taken and counted, or -1 |
| MemoryManager.Memory.FindDirUsage | zeos_full/sys.c:445-452 | the scan finds the directory of the task |
| MemoryManager.Memory.GetFrames | zeos_full/sys.c:381-391 | all frames of a child are taken, or the taken ones are given back |
| MemoryManager.Memory.InheritSpace | zeos_full/sys.c:398-420 | the child's address space, page by page through temporary entries of the parent |
| MemoryManager.Memory.CopyThrough | zeos_full/sys.c:416 | copy_data through two entries of a page table copies one frame onto another |
| MemoryManager.Memory.ShareSpace | zeos_full/sys.c:510-515 | the child has the parent's directory, which is counted once more |
| MemoryManager.Memory.LeaveSpace | zeos_full/sys.c:457-461 | the counter goes down and the pages go with the last task |
| Machine.Machine.constructor | zeos_full/system.c:84-95 | the booted machine satisfies the invariant and is in the boot state |
| Machine.Machine.Tick | zeos_full/sched.c:263-270 | one tick on the machine is one step of the state machine and keeps the invariant |
| Machine.Machine.Fork | zeos_full/sys.c:368-443 | the same for sys_fork, with its answer |
| Machine.Machine.Clone | zeos_full/sys.c:491-542 | the same for sys_clone, with its tests of both pointers and its answer |
| Machine.Machine.Exit | zeos_full/sys.c:453-466 | the same for sys_exit |
| Machine.Machine.SemInit | zeos_full/sys.c:544-547 | the same for sem_init |
| Machine.Machine.SemWait | zeos_full/sys.c:549-552 | the same for sem_wait, with the answer of the task that resumes |
| Machine.Machine.SemSignal | zeos_full/sem.c:84-101 | the same for sem_signal |
| Machine.Machine.SemDestroy | zeos_full/sem.c:119-124 | the same for sem_destroy |
| Boot.BootInv | zeos_full/system.c:84-95 | the invariant holds when the first process starts |
| Boot.BootLaw | zeos_full/sched.c:74-134 | who runs then, with which pids, quantum, directories and frames, and which control blocks are free in which order |
| Kernel.StepKeeps | zeos_full/sys.c:368-466 | every step from every state with the invariant keeps it: queues partition the blocks, pids are distinct, the slot table is consistent, draining slots have enough tasks to resume, quanta are in range, frames are owned once |
| TasksInv.SchedNextKeeps | zeos_full/sched.c:297-309 | dispatching keeps the queue invariant although a resumption changes the draining count |
| TasksInv.DrainKeeps | zeos_full/sem.c:109-116 | destroying keeps it: used == -n goes with n tasks still to resume |
| TasksInv.ExitKeeps | zeos_full/sys.c:462-465 | exit keeps it, so no semaphore outlives its owner |
| SemaphoreCalls.LookupIff | zeos_full/sem.c:28-37 | lookup by first match is lookup by identifier among live slots; 0xDEAD is never live |
| SemaphoreCalls.InitIff | zeos_full/sem.c:49-61 | sem_init succeeds if and only if the identifier is not 0xDEAD and not live and a slot has used == 0; exactly when it answers -2; the new semaphore has the first such slot, and nothing else changes |
| SemaphoreCalls.WaitIff | zeos_full/sem.c:63-82 | error if and only if the identifier is not live; passes at once if and only if the count is positive, and then only the count changes; else the caller is the last waiter and the first ready task runs, every other field as before |
| SemaphoreCalls.SignalIff | zeos_full/sem.c:84-101 | error if and only if not live; the first waiter becomes ready with the count unchanged, or the count goes up; every other field is as before, the rest of the quantum of the caller included |
| SemaphoreCalls.DestroyIff | zeos_full/sem.c:103-124 | succeeds if and only if the semaphore is live and the caller's; its waiters become ready in order, the identifier dies, one failure is outstanding for each of them, and nothing else changes |
| ProcessCalls.TimeSlice | zeos_full/sched.c:263-309 | a program keeps the processor until the last tick of its quantum, then goes behind the ready tasks and the first of them gets a full quantum; the idle task stays; all other fields are as before |
| ProcessCalls.ForkLaw | zeos_full/sys.c:376-442 | the child has the next pid, greater than all others, the quantum of its parent, waits behind all ready tasks, and has a directory nobody else has; nobody else's block or directory changes |
| ProcessCalls.CloneLaw | zeos_full/sys.c:491-542 | -EFAULT exactly for bad pointers, else -ENOMEM exactly without a free block; otherwise the child has the caller's directory and no page changes |
| Access.AccessIff | zeos_full/utils.c:65-86 | without wrap-around accepted if and only if the block lies between the first code page and the end of the page behind the data pages, for writing as for reading |
| Access.CloneArgsIff | zeos_full/sys.c:495-498 | over all 32-bit values, exactly the pointers that sys_clone accepts |
| ProcessCalls.ExitLaw | zeos_full/sys.c:453-466 | the waiters of the semaphores of the dead task stand behind the ready tasks, slot by slot in rising order, and the first of this line runs, or the idle task if it is empty; the block is the last free one, everybody else's pid, directory and live semaphores stay |
| SlotTraces.TickFlows | zeos_full/sched.c:263-309 | the events of a tick explain all changes of every slot and of the ready queue |
| SlotTraces.WaitFlows | zeos_full/sem.c:63-82 | the same for sem_wait |
| SlotTraces.ExitFlows | zeos_full/sys.c:462-465 | the same for exit with all its semaphores |
| KernelLaws.RunExplained | zeos_full/sched.c:263-309 | over every run each slot follows its events, and initial ready queue plus arrivals equals dispatches plus final ready queue, as sequences |
| KernelLaws.StepStays | zeos_full/sem.c:49-136 | in every step a slot that is neither initialised nor destroyed keeps identifier and owner, and stays live |
| KernelLaws.SemaphoreStays | zeos_full/sem.c:49-136 | the same over every run: no sem_wait or sem_signal changes whose a semaphore is |
| KernelLaws.SemaphoreLaw | zeos_full/sem.c:63-101 | over every run without destroy: count + grants + wraps = initial count + signals; woken plus waiting equals initial waiters plus blocked, in order |
| KernelLaws.MutualExclusion | zeos_full/sem.c:49-101 | from creation on, if tasks signal only what they hold, holders plus count is the initial value |
| KernelLaws.Teardown | zeos_full/sem.c:63-118 | after a destroy tasks leave in queue order, the first n (n the waiters destroyed) fail, the slot is not reused before, and as long as it is not destroyed a second time all others succeed |
| KernelLaws.TeardownExact | zeos_full/sem.c:74-80 | in a run in which the slot, reused or not, is not destroyed a second time, exactly the destroyed waiters fail if and only if no signalled task was still on its way out, or nobody waited |
| TeardownExample.SignalledWaiterFails | zeos_full/sem.c:74-80 | a run from boot in which a signalled waiter returns -2 and a destroyed one 0 |
| SlotViews.Conservation | zeos_full/sem.c:63-101 | conservation of the count for every legal event sequence, with wrap-around of the unsigned counter |
| SlotViews.Draining | zeos_full/sem.c:74-80 | while fewer than -used tasks have returned, all of them failed, used counts them and the slot is not given out |
| SchedulingLaws.SliceKept | zeos_full/sched.c:272-287 | a program that keeps the processor loses one tick of its slice by a tick and none by any call, whether or not others are ready |
| SchedulingLaws.BoundedWaiting | zeos_full/sched.c:276-309 | a task at place p of the ready queue is dispatched within left + p * 30 ticks, whatever calls interleave |
| SchedulingLaws.IdleForever | zeos_full/sched.c:276-303 | once the idle task runs nothing is ready and nothing ever becomes ready |
| SchedulingLaws.PidsNeverReused | zeos_full/sys.c:423 | over every run a live old pid is still with the same task |
| SchedulingLaws.NoOrphans | zeos_full/sem.c:126-136 | in every reachable state the owner of a live semaphore is a live task |
| SpaceInv.RollbackIff | zeos_full/sys.c:381-391 | a failing fork restores the frame map if and only if frame 256 was used |
| SpaceInv.NeverExhausted | zeos_full/mm.c:211-224 | with a free control block the frames for a child can always be taken |
| SpaceInv.DirAvailable | zeos_full/sys.c:398 | with a dead task there is a directory with counter 0, so the unchecked allocate_DIR succeeds |
| SpaceInv.ForkKeeps | zeos_full/sys.c:398-420 | fork keeps: counters are the numbers of users, tables hold only kernel, code and own data pages, frames are mapped once, nothing leaks |
| SpaceInv.ForkSnapshot | zeos_full/sys.c:400-420 | the child can read and write its data pages, reads the parent's bytes at the call and shares its code; the parent's table is as before |
| SpaceInv.ReadSame | zeos_full/sys.c:411-419 | every other task, the parent among them, reads what it read before the fork |
| SpaceInv.CloneKeeps | zeos_full/sys.c:510-515 | clone keeps the memory invariant |
| SpaceInv.ExitKeeps | zeos_full/sys.c:457-461 | exit keeps the memory invariant |
| SpaceInv.ReleasedByLast | zeos_full/sys.c:457-461 | the data frames of a task become free if and only if no other live task has its directory |
| MemoryLaws.FrameOwnership | zeos_full/mm.c:211-243 | in every reachable state the used frames from 256 on are exactly code frames and mapped data frames, mapped once, none odd, at most 188 of 384 |
| MemoryLaws.PageBits | zeos_full/mm.c:55-103 | in every reachable state the present, user and writable bits of every page of every user task: kernel pages for the kernel only and in the frame of their number, code read-only, data writable, nothing else |
| MemoryEffects.ForkEffect | zeos_full/sys.c:381-420 | the child gets the first unused directory and the lowest free frames, with copies of the parent's pages and its kernel and code entries; every other table, frame and page is as before |
| MemoryEffects.ExitEffect | zeos_full/sys.c:457-461 | the last task of a directory takes its data pages and their frames along, another one nothing; all else is as before |
| MemoryEffects.StoreEffect | zeos_full/mm.c:246-254 | a store through a user page changes one byte for the tasks of the directory and nothing for others |
| MemoryLaws.FreedFrames | zeos_full/mm.c:239-243 | in no run free_frame is called on a frame that is not an even data frame in use; frame 256, which it would not free, is never passed |
| MemoryLaws.DirectoryCounters | zeos_full/sched.c:51-62 | in every reachable state dir_usage is the number of live tasks with the directory |
| MemoryLaws.ForkFailsIff | zeos_full/sys.c:376-391 | fork answers -ENOMEM if and only if no control block is free, and then changes nothing |
| MemoryLaws.Isolation | zeos_full/sys.c:411-419 | over every run a task reads the same bytes until somebody stores in its own address space |
| MemoryLaws.ForkThenRun | zeos_full/sys.c:400-420 | after fork, and any run that leaves its space alone, the child reads what the parent read at the call |
| FatChains.FileTable.AllocateCluster | file-system/fat32.c:358-394 | table, hint and result are those of the abstract allocation; the search for the end of the chain ends |
| FatChains.FileTable.FindLast | file-system/fat32.c:369-370 | following links ends at the last cluster of the chain |
| FatChains.FileTable.DeleteFATchain | file-system/fat32.c:664-673 | the recursion ends and clears exactly the clusters of the chain |
| FatChains.Allocates | file-system/fat32.c:373-393 | full if and only if no entry from the hint on is free, with nothing changed; otherwise the first free cluster becomes the end of the chain, or a chain of its own, no other entry changes, and the table stays well formed |
| FatChains.AllocateOther | file-system/fat32.c:379-390 | every chain with another end is untouched |
| FatChains.DeleteWellFormed | file-system/fat32.c:664-673 | the table stays well formed if and only if nothing links to the deleted start |
| FatChains.DeleteOther | file-system/fat32.c:664-673 | every chain apart from the deleted one is untouched |
| FatChains.HandedOutOnce | file-system/fat32.c:373-389 | over every sequence of requests the clusters handed out strictly increase |
| FatChains.RunOther | file-system/fat32.c:358-394 | a whole chain survives every sequence of requests that do not name one of its clusters |
| FatChains.FullThoughFreeIff | file-system/fat32.c:373-393 | for every volume: "full" is answered although a cluster is free if and only if one is free and all free ones are below the hint |
| FatChains.FullThoughFree | file-system/fat32.c:358-394 | a run from the empty table that gets there: fill it up, delete the first file |
| FatChains.ChainUnique | file-system/fat32.c:369-370 | a cluster starts at most one chain |
| FatChains.NoRepeat | file-system/fat32.c:369-370 | a chain visits no cluster twice |
| FatData.FileSystem.WriteFile | file-system/fat32.c:398-480 | for every range that starts in the file, as long as the sectors met exist: each byte goes to the sector that the never reset counter leads to, the table grows by the clusters allocated on the way, and nothing else changes |
| FatData.FileSystem.ReadFile | file-system/fat32.c:483-554 | for every range that starts in the file, as long as the sectors met exist: byte i of the buffer comes from the cluster and sector that are computed from i, or stays when the chain is over |
| FatData.VisitClosed | file-system/fat32.c:523-543 | in closed form: every cluster but the first takes one change of sector more than it has sectors, and the read is over exactly when the last one is used up |
| FatData.ReadDelivers | file-system/fat32.c:520-551 | the byte that the loop delivers is the one of the closed form |
| FatData.DataRegionIff | file-system/fat32.c:266-269 | getDiskSector is the sector of the format if and only if the table copies fill two clusters |
| FatDataLaws.ReadIff | file-system/fat32.c:523-543 | for every range in a file whose clusters are on the disk: readFile delivers the file's bytes for every content of the disk if and only if the range is in one cluster, or ends in the first sector of the next one and that follows on the disk |
| FatDataLaws.WriteIff | file-system/fat32.c:438-467 | the same for writeFile, for every range in the file, those included on which it follows the chain, allocates or finds the volume full |
| FatDataLaws.RoundTrip | file-system/fat32.c:398-554 | for such ranges reading after writing returns the written bytes, and the table is as before |
| FatDataLimits.RoundTripIff | file-system/fat32.c:398-554 | for every write that starts in the file, beyond its end too, as long as the sectors met exist: reading with the table as it then is returns the data, for every disk and all data, if and only if the range ends at the latest in the first sector behind its cluster, or one sector later and the next cluster does not follow on the disk, or, with one sector to a cluster, two later and the cluster after the next follows the next |
| FatDataLimits.Astray | file-system/fat32.c:445-450 | a range on the start-up disk that is read back although its bytes are not in the file |
| FatDataLaws.PlacedOnDisk | file-system/fat32.c:398-554 | on such ranges readFile and writeFile meet only sectors of the file itself, so no further room on the disk is needed |
| FatDataLaws.StartupDisk | zeos_full/diskStartup.sh:4-6 | the 10000-sector disk has room for every file in the clusters 2 to 1245, not for cluster 1246, and its data region is where the code looks |
| FatDataLaws.StartupDiskOverrun | file-system/fat32.c:14-20 | when these are in use the next allocation is cluster 1246, which starts behind the last sector |
| FatDataLaws.WriteElsewhere | file-system/fat32.c:398-480 | a placed write changes no other byte of the file and no byte of another file |
| FatDataLimits.WriteOutsideIff | file-system/fat32.c:445-464 | for every write that starts in the file and meets only sectors that exist, allocation included: no sector outside the clusters the file then has is changed, if and only if the write does not reach the sector behind its cluster or the cluster that follows on the disk is one of them |
| FatDataLimits.WriteForeignIff | file-system/fat32.c:445-464 | and no sector of a cluster that is in use elsewhere, if and only if it does not reach that sector or the cluster that follows is not in use elsewhere |
| FatDataLimits.WriteOtherClusterIff | file-system/fat32.c:445-464 | and no sector of any other cluster, in a file or free, if and only if it does not reach that sector |
| FatDataLimits.PenClosed | file-system/fat32.c:438-467 | where writeFile is after any number of changes of sector, and what it has allocated: as many clusters as it needed, the lowest free ones in rising order, no other entry changed; it stops only if none is left |
| FatDataLimits.WrittenByte | file-system/fat32.c:436-477 | every byte of the disk afterwards is the last one written to its place, or the old one |
| FatDataLaws.WriteVolume | file-system/fat32.c:454-461 | however far writeFile goes, the chain of the file only grows at its end and every other whole chain is untouched |
| FatDataLaws.TableKeptIff | file-system/fat32.c:266-269 | no write that starts in a file and meets only sectors that exist, of any length, touches the table copies if and only if FATs * sectorsPerFAT <= 2 * sectorsPerCluster |
| Paths.ExtractFilename | file-system/fat32.c:175-207 | answer and buffer are those of the abstract extraction; bytes behind the eleventh stay |
| Paths.ExtractJoin | file-system/fat32.c:175-207 | component pos of a path, of any length, is found, cut off after eleven characters or filled up with blanks; behind the last one the answer is -1 |
| Paths.ExtractRoot | file-system/fat32.c:172-173 | position 0 delivers blanks |
| Paths.ExtractIff | file-system/fat32.c:175-207 | the same for every string: position 0 is what stands in front of the first slash |
| Paths.SplitFilename | zeos_full/sys.c:79-119 | every byte of both buffers afterwards: the padded components and the terminator in place of the last slash found, down to what the buffers held before |
| Paths.LastName | zeos_full/sys.c:112-113 | the name buffer then starts with the last name, cut off or filled up for its reader, and with a blank behind 11 characters |
| Paths.FilenameReach | zeos_full/sys.c:91-113 | a byte of the name buffer is left alone, whatever it holds, if and only if it is behind the first 12 and no name reaches it |
| Paths.SplitIff | zeos_full/sys.c:115-118 | directory and path agree on all names but the last, and the directory ends there if and only if the path has at least two components and the byte behind the end was not a slash |
| Paths.OneComponent | zeos_full/sys.c:79-119 | for one component the directory is the whole path, followed by what the buffer held behind it, so that component is found in it |

## Left out

- FatData.FileSystem.WriteFile: a sector behind the end of the disk, which the drive answers with an error that nobody looks at; and a volume that fills up on the way. There `allocateCluster` gives 0x0FFFFFFF, and the 32-bit product in `getDiskSector` is a reserved sector when the sectors per cluster are a multiple of 16 and not more than the reserved ones, and else a number that `idesetblock` (disk-driver/ide.c:236) refuses, also unnoticed; the next change of sector reads behind the table. `WriteIff` covers only the bytes misplaced before that.
- FatData.FileSystem.ReadFile: a sector behind the end of the disk, for the same reason.
- Paths.SplitFilename: a path of one component when neither the first byte of the directory buffer nor the byte behind the end is a slash; the backward search then leaves the buffer.
- Pids are unbounded integers; the wrap of the 32-bit counter `PID` after 2^32 forks is not modelled. The unsigned `count` of semaphores wraps as in C.
- Identifiers of semaphores are the unsigned values that the code compares.
- Calls by the idle task do not exist (it runs an endless loop without calls); such an operation changes nothing in `Kernel.Step`.
- Assembly, segmentation, interrupt gates, the kernel stacks beyond what a resumed `sem_wait` needs, the TLB and CR3; the page directory of a task is the index of its page table.
- Time statistics, `sys_getstats`, console, clock display, `itoa`, `libc.c` and the user programs.
- `set_quantum`, which nobody calls; all quanta are DEFAULT_QUANTUM.
- The channel table and the open file table (`sys_open`, `sys_close`, `sys_lseek`).
- `zeos_semaphores.c`, a second semaphore design that the kernel does not start, and `soa_supportE3`.
- `createFile`, `deleteFile`, `recursiveSearch`, the directory entry functions, and the transfer of the table between memory and disk (`copyFATtoDisk`, `readFATfromDisk`).
- In `allocateCluster` the local `newFile` is taken to be 0 when `startingCluster` is not 0; the C leaves it unset there.
- `deleteFATchain` on a free cluster, which would go on with the reserved entry 0; its caller passes the first cluster of a file.
- IDE ports: disk reads and writes are array operations that succeed.
