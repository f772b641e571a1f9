# swagOS: a Dafny model of its concurrent and memory-managing core

swagOS is a small SMP kernel for x86-64. This project models the parts whose correctness is hard
to see from the code, and proves what they promise.

- **Buffer cache** (`CacheModel`, `CacheProof`, `CacheSteps`, `CacheTheorems`). The 16-entry cache,
  its sleep locks, `ThreadSleep`/`Wakeup` and the IDE request queue with drive and interrupt, as
  one state machine in which any number of threads interleave freely. The file `CacheTheorems`
  ends with the main results; the others carry the step relation, the invariant and one lemma a step.
- **Reads through the cache** (`SequentialCache`, `ReadPath`, `Ext2`). `bget`'s scans over the buffer
  array, in place, the same calls as paths of the machine, and ext2's block and inode addressing.
- **Scheduler** (`SchedModel`, `SchedTheorems`, `ProcTable`). Thread states, CPUs and saved frames
  as a machine; `ProcTable` has the source's loops, each proved to be a step of it.
- **Spinlocks** (`Spinlock`), access by access, with `cli_count` and the interrupt flag.
- **Kernel heap** (`HeapGeometry`, `KernelHeap`), the section tree in its array.
- **Physical frames** (`FrameBitmap`, `SmallFrames`, `FrameOwnership`): the 2 MB bitmap, the 4 KB
  chunks, and who holds which frame over whole runs.
- **Page tables** (`PageTables`, `ProcessPages`): mapping, translation, the layout of a process,
  and fork.
- **Linked list** (`LinkedList`), with the header as a sentinel node, and the disk queue over it.

The pieces meet: the scans of `SequentialCache` pick by the cache machine's own predicates, and what
they assume of the cache holds in every state of its runs (`SequentialCache.RunsAreSound`); the
steps of `FrameOwnership` are the contracts of the bitmap and of the chunk manager, whose truncated
list is what `LinkedList` proves of removal from a chain; fork takes its frames from a reachable
state of `FrameOwnership`, which is what keeps parent and child apart (`ProcessPages.SupplyIsGood`).

Findings, each stated as a theorem about the code as written:

- A thread that the scheduler returned to while still SLEEPING, and that has cleared its channel,
  can never run again after the next switch unless it was flagged
  (`SchedTheorems.SwitchStrandsExactly`; `SchedTheorems.StrandingIsReachable` is a run in which it
  happens).
- A chunk of 4 KB frames in use falls off the chunk list exactly when a process gives back the last
  held frame of a chunk that is not the newest (`FrameOwnership.HeldChunkLostIff`), and then never
  comes back (`FrameOwnership.LostForever`); nothing is handed out twice.
- ext2 blocks that start at or above 4 GB are read from a wrapped address
  (`Ext2.BlockSectorIff`, `Ext2.FarBlockAliases`), and likewise inodes
  (`Ext2.InodeOffsetIff`, `Ext2.FarInodeAliases`).
- An ELF page in the gigabyte of the stack, the heap or the kernel takes over that gigabyte's pdpt
  entry (`ProcessPages.SamePdtIff`, `ProcessPages.LayoutAvoidsKernelIff`); `ProcessPages.StackLost`
  is a case in which the stack stops translating.
- `kfree` frees nothing (`KernelHeap.KernelHeap.Kfree`).

Where comments and code disagree the model follows the code: `try_free_chunked_frame` is described
as returning false and letting the 2 MB frame be recycled when a chunk empties, but returns true and
never recycles it; `SaveThreadContext` means to clear a killed thread, but its `memset` has size and
value exchanged and writes nothing; `kfree` means to free a block and its ancestors, but edits
copies. `find_heap_frame` has no final return; the documented failure value is used. `kalloc` and
`kfree` keep `KernelHeapLock` when they fail; the heap model is sequential and does not show it.

A panic halts the kernel. A method that may panic says when, and promises nothing about the state
after it.

## Model

| member | source | states |
|---|---|---|
| `CacheTheorems.ReadsSeeLastWrite` | src/kernel/fs/buffered_io.c:51-130 | cache coherence over every interleaving of threads, drive and interrupt: the data of every bread that returned is what the last bwrite of that block to complete before it left, or the initial contents |
| `CacheTheorems.BreadReturnsLockedValid` | src/kernel/fs/buffered_io.c:94-106 | when bread returns, its caller alone holds the buffer, which is valid, clean, has the block asked for and agrees with the disk |
| `CacheTheorems.CleanBuffersAgree` | src/kernel/drivers/ide.c:108-120 | at every moment, a valid clean buffer that its holder is not editing equals its block on the disk |
| `CacheTheorems.KeysAreUnique` | src/kernel/fs/buffered_io.c:56-87 | two buffers have the same (dev, blockno) only when the higher one is an untouched (0, 0), so no two referenced or valid buffers share a key |
| `CacheTheorems.RefcntCountsPins` | src/kernel/fs/buffered_io.c:56-65 | refcnt is the number of threads that hold the buffer or are between bget's increment and brelse's decrement |
| `CacheTheorems.PinnedNotRecycled` | src/kernel/fs/buffered_io.c:71-87 | bget never recycles a buffer that some thread holds, waits for or is still releasing |
| `CacheTheorems.WakeupsAreNotLost` | src/kernel/kernel/sleeplock.c:15-35 | outside ThreadSleep's locked window, a thread recorded asleep on a buffer and not flagged has its request still queued; on a sleep lock, the lock is held or its releaser's Wakeup is still to come |
| `CacheTheorems.FlaggedByItsChannel` | src/kernel/kernel/proc.c:550-570 | in every run an unflagged thread is flagged by a step exactly when it is recorded asleep on the channel that the step wakes: its buffer's interrupt, its lock's release |
| `CacheTheorems.OnlyFlaggedAwake` | src/kernel/kernel/proc.c:500-548 | in every run a thread stops being recorded asleep only when it is flagged |
| `CacheTheorems.NoCachePanic` | src/kernel/drivers/ide.c:146-185 | a thread that reaches iderw or the releasing half of brelse holds the sleep lock, has something to do, is not queued yet and names a block below FSSIZE: with disk 1 present, the panics there are unreachable |
| `CacheTheorems.QueueProtocol` | src/kernel/drivers/ide.c:85-133 | entry_count is twice the queue length, each buffer is queued once, and the drive has one command, for the head and in its direction, exactly when the queue is not empty |
| `CacheTheorems.CompletionOrder` | src/kernel/drivers/ide.c:164-171 | over any run the requests made are the requests completed followed by the queue: requests complete in order |
| `SequentialCache.Cache.Bget` | src/kernel/fs/buffered_io.c:51-92 | from any state that other threads left, field by field: the lowest buffer with the key gets one more reference, and the lock unless somebody has it, when the call waits with that reference counted; else the lowest unreferenced clean one is re-keyed, emptied, referenced once and locked; panics exactly when there is neither; the rest of the array unchanged |
| `SequentialCache.Cache.Bread` | src/kernel/fs/buffered_io.c:94-106 | whatever the cache held: a locked valid buffer with the disk's contents, one more reference, no other buffer touched; exactly when somebody has the buffer it waits, its reference counted and nothing else changed, and exactly when none can be had or the block is at or above FSSIZE it panics |
| `SequentialCache.Cache.Brelse` | src/kernel/fs/buffered_io.c:120-130 | gives up the lock and one reference, of that buffer only |
| `SequentialCache.Cache.ReadSector` | src/kernel/fs/ext2.c:55-62 | the sector's bytes, every reference count restored, and every later request ready exactly if it was ready before |
| `SequentialCache.RunsAreSound` | src/kernel/fs/buffered_io.c:48-130 | all that the reads assume of the cache (Cache.Valid; a disk block and a buffer's data are 512 bytes by type) holds in every state of every run of the concurrent machine, other threads' locked buffers included |
| `SequentialCache.Cache.constructor` | src/kernel/fs/buffered_io.c:30-46 | the zeroed cache meets what the reads assume |
| `SequentialCache.Cache.Resume` | src/kernel/fs/buffered_io.c:30-46 | and so does a cache with the buffers of any sound machine state |
| `ReadPath.CachedBget` | src/kernel/fs/buffered_io.c:56-69 | the concurrent machine's bget on a cached block ends in the very buffers of the sequential contract: locked by the caller, or the caller asleep on the lock with its reference counted |
| `ReadPath.UncachedBget` | src/kernel/fs/buffered_io.c:71-87 | and on an uncached block in the recycled, locked buffer |
| `ReadPath.ReadCompletes` | src/kernel/fs/buffered_io.c:94-106 | a read that must go to the disk, through the queue, ThreadSleep, the drive, the interrupt and the wakeup, has a path on which bread returns the disk's data |
| `Ext2.BlockSectorIff` | src/kernel/fs/ext2.c:27-30 | ext2_block_to_disk_sector gives the sector where the block starts if and only if the block starts below 4 GB (32-bit shifts) |
| `Ext2.FarBlockAliases` | src/kernel/fs/ext2.c:27-30 | a concrete block beyond 4 GB that is read where block 0 is |
| `Ext2.BlocksDisjoint` | src/kernel/fs/ext2.c:102-114 | sectors of different blocks, and different sectors of a block, are different |
| `Ext2.ReadBlock` | src/kernel/fs/ext2.c:102-114 | exactly the partition bytes [b*bs, (b+1)*bs) for blocks below 4 GB (the wrapped range otherwise), reference counts restored; succeeds exactly when every sector of the block is ready, else waits or panics |
| `Ext2.ConcurrentReadIsSnapshot` | src/kernel/fs/ext2.c:102-114 | in every run with any number of threads, the sector reads of one block read give the block as the bwrites completed before the first of them left it, if no bwrite of its sectors completes before the last |
| `Ext2.InodeOffsetIff` | src/kernel/fs/ext2.c:47-51 | the sum of two products in 32 bits is the inode's place (group table block times block size plus index times inode size) modulo 2^32, and is the place if and only if that is below 4 GB |
| `Ext2.InodeAtSlot` | src/kernel/fs/ext2.c:37-51 | inodes are numbered from 1, group by group: the place of inode g * inodes_per_group + x + 1 is table g's block times the block size plus x times the inode size |
| `Ext2.FarInodeAliases` | src/kernel/fs/ext2.c:47-51 | a concrete inode whose table starts at 4 GB and that is read from the start of the partition |
| `Ext2.InodeInSector` | src/kernel/fs/ext2.c:118-131 | the offset inside the sector that ext2_read_inode computes from the index is that of the inode, and its 128 bytes do not cross the sector's end |
| `Ext2.InodeInBlock` | src/kernel/fs/ext2.c:47-51 | the same 128 bytes by the textbook route through the containing block, for inode sizes that divide the block size |
| `Ext2.ReadInode` | src/kernel/fs/ext2.c:118-131 | exactly the 128 bytes at the inode's offset, which for the inode in slot x of group g are those of that slot (modulo 4 GB), reference counts restored; succeeds exactly when its sector is ready |
| `SchedTheorems.SmpExclusivity` | src/kernel/kernel/scheduler.c:96-219 | in every reachable state a non-idle thread is current on at most one CPU, and on one exactly when it is RUNNING or SLEEPING |
| `SchedTheorems.FreeSlotsNotCurrent` | src/kernel/kernel/proc.c:136-149 | a slot that FindFreeThread hands out is current on no CPU |
| `SchedTheorems.NoSchedulerPanic` | src/kernel/kernel/scheduler.c:61-93 | the "unexpected state" panic is unreachable and every runnable thread has a nonzero instruction pointer |
| `SchedTheorems.ContextIntegrity` | src/kernel/kernel/scheduler.c:192-258 | every register frame that schedule resumes is the one stored at that thread's last switch-out, or its creation frame, whatever the timing of interrupts and early Wakeups |
| `SchedTheorems.SleepingLeavesThroughWakeupReady` | src/kernel/kernel/scheduler.c:68-75 | SLEEPING is left only by exit, by exec, or for WAKEUP_READY with the frame of that switch stored |
| `SchedTheorems.BoundedBypass` | src/kernel/kernel/scheduler.c:114-171 | the times a CPU, with or without a current thread, passes over a thread that stays runnable are bounded by its cyclic distance, hence by MAX_NUM_THREADS |
| `SchedTheorems.RunsWhatIsRunnable` | src/kernel/kernel/scheduler.c:114-185 | in every run, when some thread is runnable a CPU that invokes the scheduler goes on with a runnable one, and with none farther ahead than any other; it neither idles nor goes on with its old thread |
| `SchedTheorems.FlaggedByItsChannel` | src/kernel/kernel/proc.c:550-570 | in every run can_wakeup turns true only at the thread's creation or at a Wakeup on the channel it is recorded asleep on, and then it does |
| `SchedTheorems.SwitchStrandsExactly` | src/kernel/kernel/scheduler.c:61-93 | in every run: after a switch no continuation can make the old thread runnable again if and only if that thread was still SLEEPING, had cleared its channel and was not flagged |
| `SchedTheorems.CanRunAgainIff` | src/kernel/kernel/proc.c:550-570 | a switched-out thread has a continuation that makes it runnable if and only if it is READY, flagged, or recorded on a channel |
| `SchedTheorems.StrandedForever` | src/kernel/kernel/proc.c:500-548 | a thread switched out unflagged and on no channel stays so, not runnable, on every path from there |
| `SchedTheorems.StrandingIsReachable` | src/kernel/kernel/scheduler.c:174-184 | a concrete run, from boot, in which this happens through a scheduler call that found nothing to run |
| `ProcTable.ProcTable.SaveThreadContext` | src/kernel/kernel/scheduler.c:36-93 | stores the frame and moves SLEEPING to WAKEUP_READY and RUNNING to READY, nothing else; fails exactly in an unexpected state |
| `ProcTable.ProcTable.constructor` | src/kernel/kernel/proc.c:21-47 | the table at boot is an initial state of the machine and meets its invariant |
| `ProcTable.ProcTable.Schedule` | src/kernel/kernel/scheduler.c:192-258 | returns without effect when the saved rip is zero, else makes the thread current and resumes its frame |
| `ProcTable.ProcTable.InvokeScheduler` | src/kernel/kernel/scheduler.c:96-185 | the scan loops in place: the first runnable slot in cyclic order behind the old thread becomes current and Running and is resumed with its stored frame, the old thread's frame is stored; with nothing runnable the old thread goes on, or the idle thread where there is none; exactly one step of the machine, keeping its invariant |
| `ProcTable.ProcTable.ScheduleIdleThread` | src/kernel/kernel/scheduler.c:25-33 | the idle thread becomes current, with its initial frame |
| `ProcTable.ProcTable.Wakeup` | src/kernel/kernel/proc.c:550-570 | flags exactly the sleeping or switched-out threads recorded on this channel, and changes nothing else |
| `ProcTable.ProcTable.FindFreeThread` | src/kernel/kernel/proc.c:136-149 | the lowest free slot, and none exactly when there is none |
| `ProcTable.ProcTable.CreateThread` | src/kernel/kernel/proc.c:450-498 | a new READY, flagged thread with the given frame in the lowest unused or killed slot, current nowhere; a step of the machine |
| `ProcTable.ProcTable.ExitThread` | src/kernel/arch/x86_64/syscalls.c:167-195 | the thread is KILLED and its CPU has no current thread; a step of the machine |
| `Spinlock.MutualExclusion` | src/kernel/kernel/spinlock.c:29-76 | any number of CPUs and locks, at test-and-set granularity: at most one CPU is between acquire and release, and is_locked is set exactly while one is |
| `Spinlock.CheckHeldIsExact` | src/kernel/kernel/spinlock.c:10-16 | owner_cpu names a CPU exactly while it holds the lock, so the two separate reads are right for the reader whatever others do |
| `Spinlock.PanicsAreEarned` | src/kernel/kernel/spinlock.c:37-60 | the deadlock and not-held panics happen only to a CPU that holds, respectively does not hold, the lock; no CPU spins on a lock it holds; dec_cli's panics never happen |
| `Spinlock.OwnerReadDecides` | src/kernel/kernel/spinlock.c:10-16 | and the read of owner_cpu panics or goes on exactly by whether the CPU holds the lock |
| `Spinlock.FlagReadDecides` | src/kernel/kernel/spinlock.c:37-60 | a CPU that holds the lock gets past the read of is_locked, so acquiring again panics and releasing does not |
| `Spinlock.SpinTakesFreeLock` | src/kernel/kernel/spinlock.c:44 | the test-and-set succeeds exactly when no CPU is between acquire and release |
| `Spinlock.CliCountIsExact` | src/kernel/kernel/cpu.c:316-335 | cli_count is the locks held or in transit plus the explicit sections; interrupts are on only at zero |
| `Spinlock.DecCliEnablesExactly` | src/kernel/kernel/cpu.c:323-335 | dec_cli turns interrupts on exactly when the last lock or section is gone and noINT is clear |
| `HeapGeometry.OffsetIsMultiple` | src/kernel/mem/vmm.c:10-25 | block k starts at k times its size: every block is aligned to its size |
| `HeapGeometry.Siblings` | src/kernel/mem/vmm.c:10-25 | from index 1 down, two children split their parent exactly |
| `HeapGeometry.Disjoint` | src/kernel/mem/vmm.c:10-25 | blocks of nodes not above one another do not overlap |
| `KernelHeap.KernelHeap.TreeInit` | src/kernel/mem/vmm.c:10-25 | the recursive initialisation fills exactly the subtree of its index with the geometry's sizes and offsets; index 0 has the right child only |
| `KernelHeap.KernelHeap.FindHeapFrame` | src/kernel/mem/vmm.c:101-142 | finds the lowest-addressed free block of the request's order below its index and marks the path to it, or changes nothing exactly when there is none |
| `KernelHeap.KernelHeap.Kalloc` | src/kernel/mem/vmm.c:168-184 | a block of the request's order (at least the request, under twice it or 64 KB) whose bytes meet no outstanding block, and the lowest such; NULL if and only if there is none |
| `KernelHeap.KernelHeap.Kfree` | src/kernel/mem/vmm.c:187-223 | leaves the tree and the outstanding blocks unchanged; accepts an address exactly when something was allocated and it lies in the heap |
| `KernelHeap.OutstandingDisjoint` | src/kernel/mem/vmm.c:168-223 | after any sequence of kalloc and kfree, outstanding blocks are pairwise disjoint and inside the 2 GB heap |
| `KernelHeap.InUseExact` | src/kernel/mem/vmm.c:115-141 | in_use(n) holds exactly when an outstanding block is in n's subtree, and the occupied nodes form an antichain |
| `KernelHeap.BlockFits` | src/kernel/mem/vmm.c:101-142 | the block is size-aligned, at least the request, and under twice it or the 64 KB minimum |
| `KernelHeap.SearchStopsAtRoot` | src/kernel/mem/vmm.c:34-53 | once anything is allocated heap_search_by_offset answers the root for every address in the heap |
| `FrameBitmap.RoundUpIsNextFrame` | src/kernel/include/mem/pmm.h:15-16 | HUGEPGROUNDUP is the least frame address strictly above its argument, so an aligned start moves on by one frame |
| `FrameBitmap.FrameMap.Checkout` | src/kernel/mem/pmm.c:167-191 | takes the frame out of the free ones; panics exactly when it was in use |
| `FrameBitmap.FrameMap.Request` | src/kernel/mem/pmm.c:201-242 | returns the lowest free frame and takes it, fails exactly when none is free, and its kernel-frame panic never happens |
| `FrameBitmap.FrameMap.FreeFrame` | src/kernel/mem/pmm.c:883-941 | gives the frame back, skips kernel frames before init_success; panics exactly on a misaligned, kernel or unused frame |
| `FrameBitmap.FrameMap.FreeRange` | src/kernel/mem/pmm.c:955-968 | frees exactly the aligned frames from 1 GB up with start < F and F + 2 MB < end; panics exactly when one of them is free already |
| `FrameBitmap.FrameMap.Boot` | src/kernel/mem/pmm.c:141-159 | the free frames after boot are those of the available entries (entries of other types may lie anywhere), free_framecount is their number and the first 512 flags stay set; panics exactly when two entries give the same frame |
| `FrameBitmap.BootedFree` | src/kernel/mem/pmm.c:141-159 | when the available entries are disjoint and below 64 GB, boot does not panic, and a frame is free if and only if it lies from 1 GB up strictly inside one of them |
| `SmallFrames.IndexInvertsAddress` | src/kernel/mem/pmm.c:318-320 | the index arithmetic of try_free_chunked_frame recovers the bit and word that the allocation used, for every address in the frame |
| `SmallFrames.SmallPageManager.CheckAvailable` | src/kernel/mem/pmm.c:256-288 | hands out the lowest free frame of the first chunk that has one; fails exactly when every listed chunk is full |
| `SmallFrames.SmallPageManager.TryFree` | src/kernel/mem/pmm.c:302-343 | clears the frame's bit and count, or with the last frame truncates the list to what follows the chunk; true exactly when a listed chunk has the address |
| `SmallFrames.SmallPageManager.CreateChunk` | src/kernel/mem/pmm.c:353-369 | pushes a chunk whose only used frame is the first, which it returns |
| `SmallFrames.FreeUndoesTake` | src/kernel/mem/pmm.c:302-343 | freeing the frame just handed out restores the chunk list, and only that |
| `FrameOwnership.FramesDisjoint` | src/kernel/mem/pmm.c:256-398 | over every run of requests, mappings and exits on any number of CPUs: no 4 KB frame is held twice, by one process or by two, none overlaps a 2 MB frame that is free, pending or handed out whole, and all are at or above 1 GB |
| `FrameOwnership.UseCountIsExact` | src/kernel/mem/pmm.c:273-280 | a listed chunk's bit is set exactly when somebody holds that frame, and use_count is the number of set bits, never zero |
| `FrameOwnership.ReleasesAreEarned` | src/kernel/kernel/proc.c:600-611 | every page that exit gives back has its bit set in its chunk if that is listed: the count never underflows and the word index stays inside the bitmap |
| `FrameOwnership.LostForever` | src/kernel/mem/pmm.c:324-334 | a 2 MB frame whose chunk left the list never returns to it, and no frame in it is ever handed out again |
| `FrameOwnership.HeldChunkLostIff` | src/kernel/mem/pmm.c:302-343 | in every run, a step makes a chunk that is in use fall off the list if and only if it gives back the last held frame of a chunk that is not the newest |
| `FrameOwnership.HeldChunkCanBeLost` | src/kernel/mem/pmm.c:324-334 | a concrete run, with two CPUs each pushing a chunk, in which a chunk still in use falls off the list |
| `PageTables.BuiltIff` | src/kernel/mem/pmm.c:526-578 | mapping a list of pages panics if and only if two of them disagree, in whatever order |
| `PageTables.PanicsExactly` | src/kernel/mem/pmm.c:555-564 | the "pdt" and "pd" panics happen exactly when an earlier page disagrees with the new one |
| `PageTables.AddressesTranslate` | src/kernel/mem/pmm.c:526-578 | after map_4kb_page_user every address of the page translates to the frame plus its offset |
| `PageTables.OtherAddressesKept` | src/kernel/mem/pmm.c:526-578 | and every address that translated before, user or kernel, translates as before, when equal pdpt indices use the same pdt table |
| `PageTables.AddressesAccessible` | src/kernel/mem/pmm.c:544-565 | after map_4kb_page_user user code can read and write every address of the page: all four entries on the walk are present, writable and user |
| `PageTables.UserAccessIff` | src/kernel/mem/pmm.c:526-578 | user code can use an address if and only if it reaches a recorded page, through a top-level entry that some recorded page uses |
| `PageTables.KernelIsPrivate` | src/kernel/mem/pmm.c:474-491 | whatever a process maps, every address of the kernel's gigabyte is usable by the kernel and by no user code |
| `PageTables.KernelAddresses` | src/kernel/mem/pmm.c:474-491 | whatever a process maps, each address of the kernel's gigabyte translates to its offset in the first physical gigabyte |
| `PageTables.PageIsLeaf` | src/kernel/mem/pmm.c:735-785 | the walk finds the frame of any recorded page that the indices reach through recorded tables |
| `PageTables.LeafIsPage` | src/kernel/mem/pmm.c:735-785 | and, outside the kernel's slot, it finds nothing else |
| `PageTables.IndicesArePage` | src/kernel/mem/pmm.c:529-534 | the four table indices determine the page's address |
| `ProcessPages.HeapIndices` | src/kernel/arch/x86_64/syscalls.c:264-273 | the indices of all 32768 heap pages; page k uses pdt table 3 and pd table 2 + k / 512 |
| `ProcessPages.StackIndices` | src/kernel/kernel/proc.c:89-100 | the indices of the five stack pages, and their tables 500 |
| `ProcessPages.LayoutAgrees` | src/kernel/fs/elf_load.c:100 | stack, heap and ELF pages, at any address, never make one another panic, except two ELF pages exactly when their last-level indices are equal |
| `ProcessPages.SamePdtIff` | src/kernel/fs/elf_load.c:100 | pages with equal pdpt indices use the same pdt table if and only if neither is an ELF page in the gigabyte of the stack or the heap that the other is in |
| `ProcessPages.StackLost` | src/kernel/fs/elf_load.c:100 | a concrete ELF page, mapped without a panic, after which the stack no longer translates |
| `ProcessPages.LayoutAvoidsKernelIff` | src/kernel/mem/pmm.c:474-491 | every page is legal, ELF pages use pdt table 1 and pd table 0, and a page uses the kernel's pdpt slot if and only if it is an ELF page in the kernel's gigabyte |
| `ProcessPages.Process.MapPage` | src/kernel/mem/pmm.c:526-578 | on a process: succeeds if and only if the page agrees with every recorded one, records it first, and the page then translates to its frame with every entry on the walk granting user access |
| `ProcessPages.Process.CopyFrom` | src/kernel/kernel/proc.c:171-204 | fork's replay of the parent's list, latest page first, never meets the "pd" or "pdt" panic, in any reachable state of the allocator; each new frame holds the bytes of the parent's page, no other frame changes, and no frame is shared with the parent or used twice |
| `ProcessPages.SupplyIsGood` | src/kernel/kernel/proc.c:189-191 | in every reachable state of the frames, what the allocator gave the child is page-aligned, pairwise distinct and foreign to the parent's pages |
| `ProcessPages.ProcessesIsolated` | src/kernel/kernel/proc.c:171-256 | in every reachable state two processes share no frame, none maps a frame twice, and none maps one of the kernel's |
| `ProcessPages.MapTracks` | src/kernel/mem/pmm.c:568-576 | recording a mapped page keeps every process's list of pages and the frames it holds in step |
| `ProcessPages.ForkMapsTheSamePages` | src/kernel/kernel/proc.c:171-256 | the child maps an address if and only if the parent does, to the copy of the very page the parent maps there |
| `LinkedList.List.InsertTail` | src/kernel/data_structures/linked_list.c:58-79 | on a queue: the entry goes behind the last, links stay consistent both ways from both empty representations, and the panic cannot happen |
| `LinkedList.List.InsertHead` | src/kernel/data_structures/linked_list.c:36-56 | on a chain: the entry goes first, every prev stays the header, and the panic cannot happen |
| `LinkedList.List.Remove` | src/kernel/data_structures/linked_list.c:7-17 | from a queue the first entry goes; from a chain entry k and every newer one go, leaving the suffix after it |
| `LinkedList.List.RemoveHead` | src/kernel/data_structures/linked_list.c:22-31 | the oldest entry of a queue, or NULL exactly when it is empty |
| `LinkedList.List.Drain` | src/kernel/kernel/proc.c:600-611 | the freeing walk visits every entry once, newest first, and leaves the list empty although it unlinks what it stands on |
| `LinkedList.DiskQueue.Submit` | src/kernel/drivers/ide.c:161-171 | queues the request last, counting twice; the disk is started exactly when the head of the queue is for this buffer |
| `LinkedList.DiskQueue.Complete` | src/kernel/drivers/ide.c:101-131 | takes the oldest request and names the next; over the whole history requests complete in the order submitted |

## Where the steps come from

The machines' steps carry no contract of their own; what they keep is stated above. They model:

- `CacheModel.BgetHitStep`, `CacheModel.BgetRecycleStep`: src/kernel/fs/buffered_io.c:56-87, under the cache lock; `CheckValidStep`, `BwriteStep`, `BrelseStep`, `DecrRefStep`: lines 94-130.
- `CacheModel.TakeSpinStep`, `TestLockStep`, `ClearLockStep`, `DoWakeupStep`: src/kernel/kernel/sleeplock.c:15-35; `SleepWriteStep`, `SleepUnlockStep`, `SleepReturnStep`: src/kernel/kernel/proc.c:500-548, one step a write.
- `CacheModel.EnqueueStep`, `TestIoStep`: src/kernel/drivers/ide.c:161-184; `InterruptStep`: lines 85-133; `DriveWorksStep`: the drive between command and interrupt.
- `SchedModel.SwitchStep`, `GoIdleStep`, `NoSwitchStep`: src/kernel/kernel/scheduler.c:96-219; `CreateStep`, `ExitStep` and the writes of `ThreadSleep`: src/kernel/kernel/proc.c:207-256, 450-548, 668-681 and src/kernel/arch/x86_64/syscalls.c:167-195; `Exec`: src/kernel/kernel/proc.c:289-300 and what follows it there.
- `Spinlock.Next`: src/kernel/kernel/spinlock.c:10-76 and src/kernel/kernel/cpu.c:316-335, one access a step.
- `PageTables.Fresh`, `Mapped`, `Panics`, `Walk`: src/kernel/mem/pmm.c:474-491, 526-578, 735-785.
- `FrameOwnership.TakeWholeStep`, `TakeToSplitStep`, `SplitStep`, `TakeOneStep`: src/kernel/mem/pmm.c:201-398; `MapStep`: line 576; `ReleaseStep`: src/kernel/kernel/proc.c:600-611.

## Left out

- Hardware and boot: APIC, ACPI, PCI, AHCI, GDT/TSS/IDT, assembly, serial, video, terminal and keyboard.
- Memory ordering below sequential consistency, the TLB, and kernel-stack reuse between the release of the thread-table lock and `iretq`.
- Drive errors, and devices other than 0 and 1: `idestart` selects the drive by the low bit of `dev` alone, so larger device numbers alias and the cache machine assumes they are not used; disk 1 is assumed present, for otherwise `iderw` panics on it. Blocks at or above FSSIZE panic and are not requested in the machine; `SequentialCache` covers them.
- Clients of the cache write a changed buffer with `bwrite` before `brelse`, as buffered_io.c demands of them; the machine's release step is guarded by that.
- `kalloc` returning NULL inside `iderw` and list users.
- The scheduler inside the cache machine is over-approximated: a thread in `ThreadSleep` may go on at any time, so the results there do not depend on scheduling; liveness is not stated.
- The scheduler machine takes each region under the thread-table lock as one step; processes have one thread, so `exit` is one thread's exit; creation frames and interrupt frames have a nonzero instruction pointer. An interrupt between `ThreadSleep`'s status test and its INT3 is an ordinary switch.
- A race of `Wakeup` callers that do not take the sleeper's lock (waitpid and the keyboard): the no-lost-wakeup result is not claimed for them.
- Spinlocks: the interrupt flag is turned on by interrupt return or `sti` only while `cli_count` is zero.
- FrameBitmap.FrameMap.Checkout: a word of the bitmap is 64 flags, not a 64-bit integer with masks; the two-level word and bit index arithmetic is the source's. Entries above 64 GB, for which the source indexes past its bitmap, are excluded.
- FrameBitmap.FrameMap.Boot: the walk over the tag's bytes is a walk over a sequence of entries.
- SmallFrames.SmallPageManager.TryFree: the list of chunks is a sequence (pointer links are in `LinkedList`), a bitmap word's four flags lie side by side in one sequence, and a new chunk's `use_count` is taken to start at 0, which the source does not set. Addresses in a listed chunk that its caller does not hold are excluded.
- FrameOwnership.FramesDisjoint: a process's list changes only by mapping and by the exit walk; `sys_free` and per-process heap lists are not steps, since they free the next entry's frame and remove the wrong entry; 2 MB frames are never given back after boot, as in the source.
- KernelHeap.KernelHeap.Kfree: requires that the search terminates; before the first allocation the source recurses for ever on an offset in the lower half of the heap.
- PageTables.AddressesAccessible: entries are taken to grant access by their present, writable and user bits alone.
- PageTables.AddressesTranslate: a recorded page keeps its address as its four table indices (`PageTables.IndicesArePage` gives the address back, up to the bits above 48); frame 0 is never mapped; a walk through an empty upper entry reads memory at a fixed kernel address in the source and yields nothing here.
- ProcessPages.Process.MapPage: a page that would give a pdpt entry another pdt table, or take the kernel's, is outside a process's invariant; `ProcessPages.SamePdtIff` and `ProcessPages.LayoutAvoidsKernelIff` say which pages these are.
- ProcessPages.Process.CopyFrom: that the parent's page list is the frames the allocator counts as its own is the link between the two models, kept by `ProcessPages.MapTracks` and `ProcessPages.ReleaseTracks`; reading and writing user memory moves whole pages by frame; the mapped-page checks of `FetchStruct` and `WriteStruct` are not modelled.
- ELF segment loading beyond its choice of tables, `sbrk`'s bitmap marking, ext2 path lookup, directories and indirect blocks: as written they have no general correctness statement.
- `ext2_disk_sector_to_block`: not an inverse of `ext2_block_to_disk_sector`; it would only add arithmetic.
- Ext2.ReadBlock: one call runs without interruption; what interleaved sector reads give is `Ext2.ConcurrentReadIsSnapshot`. The block size field is taken to be 1024 << k without wrap-around (k below 22).
- User programs, libc helpers, scripts and fonts.
