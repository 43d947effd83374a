# xv6 in Dafny

A model of the parts of xv6 for RISC-V where correctness is hard to see, and proofs about
it: the write-ahead log, the buffer cache, block and inode allocation and file contents; the
process table with its scheduler, sleep and wakeup, exit and wait; Sv39 page tables, fork and
exec over a pool of page frames; the virtio disk driver with its device; pipes; the user
library's heap; and the shell's parser and the two pattern matchers of the user programs.

Code that several CPUs run at once is a step relation: a step is what happens between taking
a lock and giving it up, or one write to the disk, or one move of the device, and a panic is
a state. The theorems are about every state of every run. Code that works on memory by
itself is a class whose methods have the loops of the source; each method is proved to
compute a function, and the theorems are about that function. Integers are unbounded except
where the source's width matters: ring indices of 16 bits, pipe counters and file offsets of
32 bits, sbrk's signed argument and exec's stack pointer of 64 bits wrap as they do in C.

| part | files |
|---|---|
| shared | Options, Bytes |
| log | LogFormat, LogRuns, Log |
| files | Bitmap, BlockMap, FileContent, FsSpec, FsTrunc, FsFiles, FileWrite, FsTight, Fs |
| inode table | Itable, ItableOrphans |
| buffer cache | Bufs, BufsFull, Bcache |
| processes | Proc, ProcLocks, ProcWait, ProcSteps, ProcRuns |
| memory | PageTable, PageOwner, VmSpec, VmMap, VmFree, VmUser, VmCopy, VmBytes, VmFork, VmExec, VmImage, VmRuns, Vm |
| disk driver | Virtio, VirtioRuns, VirtioDisk |
| heap | Umalloc, UmallocHeap |
| pipes | Pipe, PipeBuffer |
| user programs | Grep, Glob, Shell, ShellPrint, ShellWords, ShellParser |

`dafny verify dfyconfig.toml` checks everything.

## Model

| member | source | states |
|---|---|---|
| LogFormat.HeadRoundTrip | kernel/log.c:87-114 | What write_head stores in the header block, read_head reads back: the same list of block numbers, whatever the block held before. |
| LogFormat.RecoverKeepsImage | kernel/log.c:69-123 | Recovery may stop after any of its writes and leaves what recovery will produce as it was; run to its end it empties the header. |
| LogFormat.CommitImage | kernel/log.c:179-203 | Up to the last log block a commit leaves the old contents in place; from the first header write on, recovery produces what the cache held. |
| LogFormat.RecoveredImage | kernel/log.c:117-123 | However often recovery is cut short, the one that finishes leaves every home block as the crashed disk promised. |
| LogFormat.CrashAtomicity | kernel/log.c:67-203 | Crash after any number k of a commit's writes, let any number of recoveries crash too, let one finish: all home blocks are as before if k is at most the number of logged blocks, and all as the cache held them otherwise. |
| LogRuns.RunInv | kernel/log.c:126-235 | The invariant of the logging layer holds in every state of every run: operations in any interleaving, group commits one disk write at a time, crashes and recoveries at any point. |
| LogRuns.DurableRun | kernel/log.c:126-203 | Cut any run at any point, let any number of recoveries crash and one finish: every home block holds the last committed view. |
| LogRuns.CommitsAreWhole | kernel/log.c:147-203 | The committed views never lose an entry and grow only when no operation is outstanding, by the view of that moment: no operation is committed in part. |
| LogRuns.BootShowsCommitted | kernel/log.c:117-123 | A machine that has come up after a crash shows exactly the last committed view. |
| LogRuns.Bookkeeping | kernel/log.c:126-175 | In every state: header entries plus unused reservations are at most LOGSIZE, the header has no duplicates, a commit means no outstanding operation, none outstanding and no commit means an empty header, and a begin_op sleeper has something to wait for. |
| LogRuns.NewBlockWrite | kernel/log.c:215-235 | A log_write of a new block always finds fewer than LOGSIZE entries, and panics exactly when the log area is too small. |
| LogRuns.AbsorbedWrite | kernel/log.c:215-235 | Rewriting a block that is already logged panics exactly when the header or the log area is full, and otherwise leaves the header as it is. |
| LogRuns.EndOpNeverPanics | kernel/log.c:147-175 | end_op never finds a commit in progress. |
| LogRuns.SmallLogPanics | kernel/log.c:218-221 | With a log area of at most LOGSIZE blocks there is a run in which a log_write of a new block, within its operation's reservation, panics. |
| LogRuns.FullReservationFits | kernel/log.c:218-221 | No log_write of a new block within its reservation panics, in any run, if and only if the log area is larger than LOGSIZE. |
| LogRuns.FullHeaderRefusesRewrite | kernel/log.c:218-228 | However large the log area, with LOGSIZE blocks logged a rewrite of one of them panics: the guard comes before the search. |
| Log.Log.WriteLog | kernel/log.c:179-191 | Copies every listed buffer to its log block, one disk write each, and leaves what the cache shows. |
| Log.Log.WriteHead | kernel/log.c:103-114 | Writes the in-memory list to the header block in one disk write. |
| Log.Log.InstallTrans | kernel/log.c:69-83 | Copies every log block to its home block, leaves the cache in agreement with the disk, and unpins the blocks unless recovering. |
| Log.Log.Commit | kernel/log.c:194-203 | Makes exactly the 2n + 2 writes that the crash theorem is about; each disk on the way recovers to the old contents up to write n and to what the cache showed after it; the header ends empty and nothing is pinned. |
| Log.Log.ReadHeader | kernel/log.c:87-97 | Loads the list that the header block holds. |
| Log.Log.RecoverFromLog | kernel/log.c:117-123 | Ends with the cache showing the image of the crashed disk; each disk on the way recovers like the one it started from. |
| Log.Log.LogWrite | kernel/log.c:215-235 | Succeeds exactly if the header and the log area have room and an operation is outstanding; a listed block is absorbed, another one appended and pinned. |
| Log.CommitTraceAt | kernel/log.c:194-203 | The k-th disk that commit leaves behind is the one the crash theorem is about. |
| Log.RecoverTraceAt | kernel/log.c:117-123 | The k-th disk that recovery leaves behind is the one the crash theorem is about. |
| Bitmap.BitOfSet | kernel/fs.c:66-88 | Setting a bit with balloc's mask arithmetic sets that bit of the bitmap and no other. |
| Bitmap.BitOfClear | kernel/fs.c:92-105 | Clearing a bit with bfree's mask arithmetic clears that bit and no other. |
| BlockMap.OwnershipMeans | kernel/fs.c:65-105 | The ownership invariant says: a data block's bit is set exactly when some direct slot, indirect pointer or indirect entry names it, and no two of them name the same block. |
| FsSpec.AllocSlotExtends | kernel/fs.c:66-88 | Allocating into an empty slot keeps ownership and names a block nobody had; it fails only when no block is free, and then changes nothing. |
| FsSpec.BmapMaps | kernel/fs.c:383-421 | bmap keeps ownership, also on its out-of-space paths, answers the block of the file block, and changes no other mapping and no other file's bytes. |
| FsSpec.WriteLoopWrites | kernel/fs.c:518-531 | writei's loop writes its bytes to the file, leaves every other byte of every file alone, keeps ownership, and stops short only when the disk is full. |
| FsSpec.WriteLoopLogs | kernel/fs.c:518-531 | The blocks the loop logs: bounded bitmap blocks, one block per file block covered, and the indirect block. |
| FsTrunc.ItruncFrees | kernel/fs.c:426-453 | itrunc never meets the panic for freeing a free block; it leaves the inode empty, gives back exactly its blocks, and changes no other inode and no block. |
| FsFiles.WriteiSplices | kernel/fs.c:506-539 | writei splices the prefix it reports into the file at off, extends the size if need be, leaves all other files alone, and keeps the invariants; bad ranges change nothing. |
| FsFiles.ReadiReads | kernel/fs.c:472-496 | readi returns exactly the slice of min(n, size - off) bytes and changes nothing; nothing on a bad range. |
| FsFiles.ReadAfterWrite | kernel/fs.c:472-539 | Reading back what writei reported as written gives those bytes, across direct and indirect blocks. |
| FsFiles.ChunkBudget | kernel/file.c:149-166 | A chunk of 3072 bytes spans at most four blocks, and needs few enough bitmap blocks because every block below the size is already there. |
| FsFiles.ChunkFits | kernel/file.c:149-166 | A writei of at most 3072 bytes in a fresh transaction logs at most MAXOPBLOCKS blocks, however many bitmap blocks there are. |
| FsTight.TenBlocks | kernel/file.c:149-166 | The bound is reached: a concrete volume on which one chunk logs ten blocks. |
| FileWrite.ChunkWrites | kernel/file.c:155-166 | One turn of filewrite's loop: at most MAXOPBLOCKS blocks logged, its bytes spliced into the file. |
| FileWrite.LoopWrites | kernel/file.c:149-175 | filewrite as a whole: every transaction fits, the bytes by which f->off moved are spliced in one piece, no other file changes, and it stops early only if the disk is full or the file too large. |
| FileWrite.BeyondEnd | kernel/file.c:149-175 | With f->off beyond the end the first writei refuses and nothing happens. |
| Fs.Fs.Balloc | kernel/fs.c:66-88 | Computes the allocation that the specification makes, by the loops over bitmap blocks and bits. |
| Fs.Fs.Bfree | kernel/fs.c:92-105 | Clears the bit, or answers false where the code panics. |
| Fs.Fs.Bmap | kernel/fs.c:383-421 | Computes the block that the specification finds or allocates. |
| Fs.Fs.Itrunc | kernel/fs.c:426-453 | Both loops and the final reset: the inode is empty, its blocks are free, no bfree panics. |
| Fs.Fs.Readi | kernel/fs.c:472-496 | The loop returns the slice of the file's contents and leaves the volume as it was. |
| Fs.Fs.Writei | kernel/fs.c:506-539 | The loop splices the bytes it reports and keeps the whole invariant. |
| Fs.Fs.FileWrite | kernel/file.c:135-181 | The chunking loop: every transaction within MAXOPBLOCKS, the written prefix spliced at f->off, the return value, and the refusal beyond the end. |
| Itable.RunInv | kernel/fs.c:199-362 | The inode table's invariant holds in every state of every run of ialloc, iget, idup, ilock, iunlock and iput. |
| Itable.TableStructure | kernel/fs.c:247-362 | In every run an inode is in at most one referenced entry, ref is the number of references, and whoever holds ip->lock has a counted reference of their own, alone. |
| Itable.PutNeverWaits | kernel/fs.c:341-346 | When iput is about to free an inode, its lock is free: the acquiresleep under itable.lock does not block. |
| Itable.OnlyTableFull | kernel/fs.c:247-362 | The only panic that a run can reach is that of a full table: ilock never finds a free inode, iput never sleeps under a spinlock. |
| Itable.LockedIsCurrent | kernel/fs.c:293-317 | Under ip->lock a valid copy is the inode on disk, and that inode is allocated. |
| Itable.ReuseRereads | kernel/fs.c:199-362 | An ialloc that reuses the number while iput is still freeing it sees, under the lock, the inode of its own allocation. |
| Itable.ReuseHappens | kernel/fs.c:199-362 | A concrete run on inode 1 in which iget hands out an entry whose old inode is still being freed, marked valid and stale. |
| Itable.FindFinds | kernel/fs.c:253-265 | iget's scan finds the referenced entry whenever there is one, and otherwise an unreferenced one whenever there is one. |
| Itable.Table.Iget | kernel/fs.c:247-277 | The scan over the table: the found entry's count goes up, or the first free entry is reset, or nothing changes. |
| Itable.FindFree | kernel/fs.c:205-216 | ialloc's scan answers the first free inode from 1 on, or none if all are in use. |
| ItableOrphans.OrphanStep | kernel/fs.c:337-362 | An allocated inode without links loses its last reference without being freed exactly in two ways: in the late ref-- of an iput that has freed the number before, or in iput of an inode never read. |
| ItableOrphans.OrphanRun | kernel/fs.c:337-362 | A run that starts without such an inode has one in some state if and only if it takes one of those two steps. |
| ItableOrphans.NoOrphanByCalls | kernel/fs.c:199-362 | A run in which ialloc never answers a number that an iput has freed and not yet given up, and in which no inode is put unread, has no such inode in any state. |
| ItableOrphans.OrphanHappens | kernel/fs.c:337-362 | A concrete run that leaves inode 1 behind in this way. |
| Bufs.VictimIsOldest | kernel/bio.c:75-86 | bget's backward scan finds the unreferenced buffer that was released longest ago. |
| Bufs.RunInv | kernel/bio.c:37-151 | The buffer cache's invariant holds in every state of every run of bread, bwrite, brelse, bpin and bunpin under the log's discipline. |
| Bufs.CacheStructure | kernel/bio.c:37-151 | In every run the list is a permutation of the buffers, no block is in two buffers, and refcnt is holders, waiters and releasers plus pins. |
| Bufs.ReadsLatest | kernel/bio.c:93-137 | After bread the holder sees what was last stored in the block. |
| Bufs.RecyclesOldest | kernel/bio.c:73-86 | Recycling takes the buffer released longest ago, never a pinned or locked one, and never one whose contents are not on disk. |
| BufsFull.NoBuffers | kernel/bio.c:59-89 | bget panics exactly when the block is in no buffer and every buffer is referenced. |
| BufsFull.LogAndReader | kernel/bio.c:59-89 | With all but one buffer pinned by the log and the last in a reader's hands, the next bread panics: a run for every number of buffers. |
| Bcache.InsertFront | kernel/bio.c:45-52 | Linking a buffer in behind the head puts it first and keeps both directions of the list. |
| Bcache.MoveFront | kernel/bio.c:126-133 | brelse's six stores move the buffer to the front and keep the list doubly linked. |
| Bcache.Bcache.constructor | kernel/bio.c:37-53 | binit leaves a well-formed list of unreferenced, invalid buffers. |
| Bcache.Bcache.Bget | kernel/bio.c:59-89 | The two scans over the linked list: the buffer that has the block, else the last unreferenced one, reset, else none. |
| Bcache.Bcache.Drop | kernel/bio.c:117-137 | One reference less; at zero the buffer goes to the front, and the order of the others stays. |
| Bcache.Bcache.Bpin | kernel/bio.c:140-144 | One reference more, nothing else. |
| Bcache.Bcache.Bunpin | kernel/bio.c:147-151 | One reference less, nothing else. |
| ProcRuns.NextKeeps | kernel/proc.c:280-616 | Every step of every CPU keeps the whole invariant of locks, scheduler states, parents and wakeups. |
| ProcRuns.OnlyInitPanics | kernel/proc.c:347-616 | No panic of sched, sleep, exit or acquire is reachable, except that of init exiting. |
| ProcLocks.SchedChecks | kernel/proc.c:491-508 | Whoever reaches sched holds exactly p->lock and is not RUNNING: none of its checks can fail. |
| ProcLocks.Dispatchable | kernel/proc.c:445-481 | A runnable process whose lock the scheduler holds is executed by no CPU. |
| ProcRuns.SchedulerInvariant | kernel/proc.c:444-519 | Whenever p->lock is free, p is RUNNING exactly if one CPU has c->proc == p; that CPU executes p, and otherwise none does. |
| ProcRuns.WakeupFindsSleeper | kernel/proc.c:547-592 | A wakeup under the lock that a sleeper released finds it SLEEPING on the channel or woken already, never on its way to sleep. |
| ProcRuns.NoLostWakeup | kernel/proc.c:547-592 | When wakeup has gone through the table, no process that released the lock to sleep on the channel is left asleep. |
| ProcRuns.NoLostExit | kernel/proc.c:347-435 | Whenever wait_lock is free, a process asleep in wait has a child and no zombie child. |
| ProcRuns.ParentsAlive | kernel/proc.c:315-386 | No process in use has a parent that is unused or a zombie; only init and a child not yet linked have none. |
| ProcRuns.FreeIsSafe | kernel/proc.c:391-435 | When wait frees a zombie, no CPU executes it or has it as c->proc, although exit wakes the parent before it is a zombie. |
| PageTable.PteOfSet | kernel/vm.c:86-103 | Writing one PTE of a table page changes that entry and no other. |
| PageTable.OwnershipMeans | kernel/vm.c:144-199 | Under the frame invariant no two user pages of any address spaces share a frame. |
| VmSpec.WalkFinds | kernel/vm.c:86-103 | walk finds the table that holds the entry of a page; without alloc it changes nothing, with alloc it only adds tables and fails only when memory has run out. |
| VmMap.MappagesAdds | kernel/vm.c:144-172 | mappages adds exactly its range to the flat map, or a prefix of it on -1; all other translations and all data stay; it panics only if a page of the range is mapped, succeeds only if none is, and fails only when memory has run out. |
| VmMap.UnmapDrops | kernel/vm.c:178-199 | uvmunmap with do_free removes exactly its range and frees exactly those frames. |
| VmMap.UnmapPanics | kernel/vm.c:178-199 | uvmunmap panics, with do_free or without, exactly if some page of the range has no mapping. |
| VmMap.UnmapOneHolds | kernel/vm.c:178-199 | Without do_free the mapping goes and the frame stays with the caller. |
| VmFree.FreewalkFrees | kernel/vm.c:279-294 | freewalk on an address space without mappings never meets a leaf and gives back every table page, each once. |
| VmUser.UvmallocWorks | kernel/vm.c:233-256 | A failed uvmalloc leaves the flat map and all data as they were and keeps only reachable tables; a successful one adds exactly the new pages, zeroed; it never panics. |
| VmCopy.UvmdeallocWorks | kernel/vm.c:263-274 | uvmdealloc drops exactly the pages above the new size and frees their frames. |
| VmCopy.UvmcopyWorks | kernel/vm.c:313-340 | uvmcopy copies every page with its flags, or fails and leaves the child without pages; the parent stays as it was. |
| VmCopy.UvmfreeWorks | kernel/vm.c:299-304 | uvmfree gives back every user page and every table page exactly once and touches no other address space. |
| VmBytes.WalkaddrFinds | kernel/vm.c:109-126 | walkaddr answers the frame of a valid user page and nothing otherwise. |
| VmBytes.CopyinReads | kernel/vm.c:389-408 | copyin succeeds exactly if the whole range is readable, and then gives the bytes of the flat map. |
| VmBytes.CopyoutWrites | kernel/vm.c:359-383 | copyout writes the whole range if all of it is writable and stops at the first page that is not; all other bytes of all address spaces stay. |
| VmBytes.CopyinstrReads | kernel/vm.c:415-451 | copyinstr finds the string if one ends within max bytes and all of it is readable, and fails otherwise; no other length fits. |
| VmFork.ProcPagetableWorks | kernel/proc.c:177-206 | proc_pagetable makes an address space with the two top pages, or fails and gives back every frame. |
| VmFork.FreePagetableWorks | kernel/proc.c:211-216 | proc_freepagetable gives back the whole address space and touches no other. |
| VmFork.ForkWorks | kernel/proc.c:280-296 | A failed fork returns every frame it took and leaves all address spaces as they were; a successful one makes an exact copy of the parent's pages. |
| VmExec.LoadsegWorks | kernel/exec.c:148-166 | loadseg copies the segment's bytes from the file or stops at a short read; its panic cannot happen. |
| VmExec.UvmclearWorks | kernel/vm.c:345-353 | uvmclear takes the user bit from one page and changes nothing else. |
| VmExec.ExecWorks | kernel/exec.c:49-141 | exec never panics; if it fails every frame it took is free again and the caller's image as it was; if it succeeds the new address space has taken the old one's place, whose frames are all free. |
| VmImage.SegmentsHold | kernel/exec.c:53-70 | After all program headers each byte of the image is the one that the last segment covering it says, and 0 where none does. |
| VmImage.PushAllShows | kernel/exec.c:91-111 | After the pushes every argument string lies where its pointer says, the array of pointers closed by 0 lies at sp, sp is a multiple of 16, and nothing below the stack's base has changed. |
| VmImage.ExecShows | kernel/exec.c:49-141 | A successful exec leaves the program's segments, zeros and arguments in the new address space, also after the old one is freed; no byte of the guard page above the image can be read, and every byte of the stack pages above it can be written. |
| VmImage.ArgIsString | kernel/exec.c:91-111 | Where such a pointer points, the string that copyinstr would read is the argument. |
| VmRuns.NextKeeps | kernel/proc.c:110-326 | Creating, growing, shrinking, forking, exec, writing and freeing keep the frame invariant, whatever fails on the way, and leave every other process's mappings and bytes alone. |
| VmRuns.BootInv | kernel/kalloc.c:27-40 | The state that kinit leaves satisfies the frame invariant. |
| VmRuns.MemoryInvariant | kernel/vm.c:232-340 | In every run from boot no panic of the memory code is reached, every process has exactly the pages of its size, and every frame is free once, or held by the kernel, or part of exactly one process. |
| VmRuns.AllFramesReturn | kernel/proc.c:156-216 | Whenever no process is left, the free list holds every frame outside the kernel exactly once, whatever has happened and failed before. |
| VmRuns.Isolation | kernel/proc.c:110-326 | No step changes a mapping or a byte of a process that it is not about; fork leaves the parent alone too. |
| Vm.Vm.Kalloc | kernel/kalloc.c:69-82 | Takes the first page of the free list and fills it with junk, or answers none. |
| Vm.Vm.Kfree | kernel/kalloc.c:47-63 | Fills the page with junk and puts it on the free list. |
| Vm.Vm.Freerange | kernel/kalloc.c:34-40 | The loop puts every frame of the range on the free list, once. |
| Vm.Vm.Kinit | kernel/kalloc.c:27-31 | Leaves the boot state of the run theorems. |
| Vm.Vm.Walk | kernel/vm.c:86-103 | The loop over levels computes the walk of the specification. |
| Vm.Vm.Mappages | kernel/vm.c:144-172 | The loop over pages computes the mapping of the specification, with its error and its panic. |
| Vm.Vm.Uvmunmap | kernel/vm.c:178-199 | The loop over pages computes the unmapping of the specification, with its panics. |
| Vm.Vm.Uvmalloc | kernel/vm.c:233-256 | The loop computes the growth of the specification, including the way back. |
| Vm.Vm.Uvmcopy | kernel/vm.c:313-340 | The loop computes the copy of the specification, including the way back. |
| Vm.Vm.Freewalk | kernel/vm.c:279-294 | The recursive loop computes the freeing of the specification. |
| Vm.Vm.Copyin | kernel/vm.c:389-408 | The loop over pages answers what the specification copies. |
| Vm.Vm.Copyout | kernel/vm.c:359-383 | The loop over pages leaves the memory that the specification leaves. |
| Vm.Vm.Copyinstr | kernel/vm.c:415-451 | The two loops answer the string that the specification finds. |
| Vm.PxIs | kernel/riscv.h:386-401 | The index macros are the digits of the virtual page number. |
| Virtio.PushSlot | kernel/virtio_disk.c:260-271 | Adding an entry to a ring that is not full overwrites none that is still to be read, also where the 16-bit index wraps. |
| VirtioRuns.Alloc3Fails | kernel/virtio_disk.c:202-213 | alloc3_desc fails exactly when fewer than three descriptors are free. |
| VirtioRuns.FreeChainFrees | kernel/virtio_disk.c:186-197 | free_chain frees the three descriptors of a request and no other. |
| VirtioRuns.RunInv | kernel/virtio_disk.c:156-327 | The queue's invariant holds in every state of every run of driver and device, for any order of completion. |
| VirtioRuns.Partition | kernel/virtio_disk.c:156-213 | In every run the free descriptors and the chains in flight partition the descriptors, three to a chain. |
| VirtioRuns.RingsKept | kernel/virtio_disk.c:260-327 | In every run both rings are read in the order they are written, never hold more than NUM unread entries, and no unread entry is overwritten. |
| VirtioRuns.ServedOnce | kernel/virtio_disk.c:216-327 | Each request that has returned was served once, for its own command, sector and buffer, and reported once; what was written is what the buffer held at the call. |
| VirtioRuns.ReturnsServed | kernel/virtio_disk.c:282-292 | virtio_disk_rw returns only after that transfer, and after a read the buffer holds what the device took from the request's sector. |
| VirtioRuns.NoLostWakeup | kernel/virtio_disk.c:229-285 | A sleeping request has something to wait for: fewer than three free descriptors, or its head with the device or on its way back. |
| VirtioRuns.OnlyDiskErrors | kernel/virtio_disk.c:295-327 | The driver stops only when the device has reported an error; no free_desc panic and no null buffer is reachable. |
| VirtioDisk.Disk.AllocDesc | kernel/virtio_disk.c:157-166 | The scan takes the first free descriptor. |
| VirtioDisk.Disk.FreeDesc | kernel/virtio_disk.c:170-182 | Frees and clears a descriptor, or answers false where the code panics. |
| VirtioDisk.Disk.FreeChain | kernel/virtio_disk.c:186-197 | The loop frees along the chain what the specification frees. |
| VirtioDisk.Disk.Alloc3Desc | kernel/virtio_disk.c:202-213 | All three or none: a failure puts everything back. |
| VirtioDisk.Disk.Send | kernel/virtio_disk.c:236-271 | Fills the three descriptors, the command, the status and the ring as the step relation says. |
| VirtioDisk.Disk.Intr | kernel/virtio_disk.c:295-327 | The loop reports every entry still to be read to its buffer, until a status is not 0. |
| Umalloc.FreeKeeps | user/umalloc.c:25-44 | free keeps the list sorted, disjoint and fully coalesced, keeps live blocks apart, and conserves units. |
| Umalloc.GrowKeeps | user/umalloc.c:47-61 | morecore keeps all that for memory above what was obtained before. |
| Umalloc.MallocWorks | user/umalloc.c:64-90 | malloc hands out a block that is large enough and overlaps no live block, and keeps the heap in order; it returns 0 exactly when nothing fits and sbrk, asked for more, refuses, and then changes nothing. |
| Umalloc.MallocBreaks | user/umalloc.c:47-90 | malloc corrupts the heap exactly when nothing fits, more than 2147483616 bytes are asked for, and sbrk does not refuse the wrapped count. |
| Umalloc.LargeRequestBreaks | user/umalloc.c:47-61 | A request for 2147483648 bytes of an empty heap does so. |
| Umalloc.RunsKeep | user/umalloc.c:25-90 | In every run the free list starts at base, is in address order, disjoint and fully coalesced, freep is on it, live blocks overlap neither each other nor a free one, and free plus allocated units are the units obtained. |
| Umalloc.FreeUndoes | user/umalloc.c:25-90 | Freeing the block that malloc has just cut restores the free list exactly. |
| Umalloc.SizesFit | user/umalloc.c:14-20 | No size field exceeds the units obtained, so none wraps below 2 to the 32nd units. |
| UmallocHeap.StopsAtPos | user/umalloc.c:30-32 | The two conditions of free's search hold at the one entry behind which the block belongs, and nowhere else. |
| UmallocHeap.Relinked | user/umalloc.c:33-42 | free's stores, in their order, leave the circular list of the specification. |
| UmallocHeap.Allocator.Search | user/umalloc.c:30-32 | The search loop ends, at that entry. |
| UmallocHeap.Allocator.Free | user/umalloc.c:25-44 | The headers in memory are those of the specification's list again. |
| UmallocHeap.Allocator.Malloc | user/umalloc.c:64-90 | The first-fit loop, with morecore inside, ends and answers what the specification says. |
| UmallocHeap.Allocator.Store | user/umalloc.c:25-90 | A program that writes inside its own blocks changes no header. |
| Pipe.PipeIsFifo | kernel/pipe.c:77-130 | Over all interleavings what was taken out is a prefix of what was written, the pipe holds the rest in order, never more than PIPESIZE bytes, and the wrapping counters tell how many; what readers got is that prefix exactly if no byte taken out failed to be copied. |
| Pipe.WritersWait | kernel/pipe.c:77-103 | In every run a sleeping writer has a full pipe with the read end open. |
| Pipe.SleepersWait | kernel/pipe.c:106-118 | In every run without a writer killed between its bytes, a sleeping reader has an empty pipe with the write end open. |
| Pipe.ReaderStep | kernel/pipe.c:84-87 | That clause is lost exactly by a writer that is killed between its bytes while a reader sleeps. |
| Pipe.SilentWriter | kernel/pipe.c:84-87 | A concrete run in which a reader sleeps on with a byte in the pipe. |
| Pipe.LostByte | kernel/pipe.c:119-125 | A concrete run in which a byte that could not be copied out is gone and the next read delivers the one after it. |
| Pipe.FreedIsIdle | kernel/pipe.c:59-74 | Once the pipe is freed nobody is inside a call on it. |
| PipeBuffer.Buffer.Write | kernel/pipe.c:77-103 | The loop stores its bytes where the step relation says and ends as it may: full, complete, bad address, reader gone or killed. |
| PipeBuffer.Buffer.Read | kernel/pipe.c:119-129 | The loop delivers the next bytes; it loses one exactly if the caller's memory ends before the request and the pipe do. |
| PipeBuffer.Buffer.Close | kernel/pipe.c:59-74 | Closes one end; the pipe is freed exactly if both are closed. |
| Grep.Match | user/grep.c:73-82 | Accepts exactly if some suffix of the text, or the whole text after a caret, is in the language of the pattern. |
| Grep.MatchHere | user/grep.c:85-96 | Accepts exactly if the pattern's items can cut a prefix of the text into their pieces, all of it where a final dollar sign says so. |
| Grep.MatchStar | user/grep.c:99-106 | The same for a starred character in front of the pattern; the recursion of the two ends. |
| Glob.GlobMatch | user/find.c:62-92 | Accepts exactly the texts that can be cut into one piece per pattern character, although behind a star it never tries the empty rest. |
| Glob.StarStar | user/find.c:65-68 | A star after a star adds nothing. |
| Shell.GetToken | user/sh.c:448-490 | Every token but the end is not empty, and a word token is a maximal run of word characters. |
| ShellPrint.ParsePrint | user/sh.c:510-628 | Parsing the fully parenthesised printing of any command, with words free of white space and symbols and fewer than MAXARGS arguments, gives the command back. |
| ShellPrint.PrintParses | user/sh.c:527-628 | The same for a printing inside a line, up to its end or a closing parenthesis. |
| ShellWords.WordsAreStrings | user/sh.c:632-675 | For every line that parses: after nulterminate each argument and each file name is the C string of its own token, and no token was written to. |
| ShellWords.Nulterminate | user/sh.c:632-675 | The recursion and its loop put a NUL at the end of each word and change nothing else. |
| ShellWords.LineWords | user/sh.c:527-628 | Every argument and file name that the parser records is a word of the line. |
| ShellParser.Parser.GetToken | user/sh.c:448-490 | The loops find the token of the specification and leave the position behind it. |
| ShellParser.Parser.Peek | user/sh.c:493-502 | Skips white space and answers whether one of the characters follows. |
| ShellParser.Parser.ParseLine | user/sh.c:527-541 | The loop and the recursion end on every input, with the tree or the panic of the specification. |
| ShellParser.Parser.ParsePipe | user/sh.c:544-554 | The same for pipelines. |
| ShellParser.Parser.ParseRedirs | user/sh.c:557-579 | The loop collects the redirections in the order in which they wrap the command. |
| ShellParser.Parser.ParseBlock | user/sh.c:582-595 | The same for parenthesised blocks. |
| ShellParser.Parser.ParseExec | user/sh.c:598-628 | The same for simple commands, with the panic at MAXARGS arguments. |
| ShellParser.Parser.ParseCmd | user/sh.c:510-524 | The whole of parsecmd: the tree with its words terminated in memory, or a panic on leftovers. |

## Findings

Properties that the code, its comments or its documentation suggest and that do not hold.
Each has a run or an input that shows it, and the exact condition under which it holds.

- kernel/log.c:218-221, the size of the log area. The space reservation admits LOGSIZE
  blocks, and mkfs makes the log area LOGSIZE blocks large (mkfs/mkfs.c:25), header
  included. LogRuns.SmallLogPanics reaches the panic by a write of a new block within its
  operation's reservation; LogRuns.FullReservationFits shows that no run does if and only if
  the area is larger than LOGSIZE.
- kernel/log.c:218-228, absorption. The guard comes before the search for the block, so
  a rewrite of a block that is already logged can panic: LogRuns.FullHeaderRefusesRewrite,
  and LogRuns.AbsorbedWrite says exactly when.
- kernel/bio.c:73-88, the number of buffers. NBUF is LOGSIZE. With LOGSIZE - 1 blocks pinned
  by the log and one reader outside any transaction, the bread of a log block in write_log
  finds no buffer: BufsFull.LogAndReader, and BufsFull.NoBuffers says exactly when bget
  panics.
- kernel/fs.c:337-362, iput. The comment says that the last reference to an inode without
  links frees it. A process that has freed an inode and is held up before its ref-- keeps
  another one, who has reused the number, from being the last:
  ItableOrphans.OrphanHappens. ItableOrphans.OrphanStep says exactly which steps leave an
  allocated inode behind, and ItableOrphans.OrphanRun that a run has one exactly if it takes
  such a step. In terms of the calls, ItableOrphans.NoOrphanByCalls: there is none if no
  number is used again between an iput's freeing of it and its ref--, and no new inode is
  put unread.
- kernel/pipe.c:84-87, a killed writer. It returns without waking the readers after it has
  stored bytes: Pipe.SilentWriter. Pipe.ReaderStep shows that the clause about sleeping
  readers is lost exactly by such a step, and Pipe.SleepersWait that it holds otherwise.
- kernel/pipe.c:122-125, a failed copyout. The byte has left the pipe and is not delivered:
  Pipe.LostByte. Pipe.PipeIsFifo shows that readers get exactly what was taken out if and
  only if this never happened, and PipeBuffer.Buffer.Read when a call does it.
- user/umalloc.c:54, large requests. sbrk takes an int, so morecore's byte count wraps from
  2 to the 27th units on, and the new block's header promises memory that is not there:
  Umalloc.LargeRequestBreaks, and Umalloc.MallocBreaks says exactly when.

## Left out

- Liveness and fairness: the theorems say what cannot happen and that sleepers have something to wait for, not that anybody is scheduled.
- Spinlocks and sleep locks are atomic locks with an owner; memory fences, interrupts other than the timer's and the disk's, and swtch as assembly are not modelled.
- kernel/proc.c: pids are not modelled, so kill finds its target by a free choice; open files, working directories, names and exit codes have no part in the process model; memory is a model of its own.
- kernel/fs.c: directories, path names and the superblock are not modelled; a copy between kernel and user that fails in readi or writei is not, nor is the bound on the blocks that itrunc logs.
- kernel/fs.c, inode table: one device, so that the inode number stands for the pair; a directory entry is taken to lead only to an inode whose link count is not 0.
- kernel/file.c: the file table with its reference counts, devices and the dispatch on file types; other writers of the same file between two chunks of filewrite.
- kernel/vm.c: the kernel's own page table, accessed and dirty bits, the TLB, and sizes that are not whole pages in mappages; physical memory has at most 2 to the 24th frames.
- kernel/exec.c: finding the file, its ELF header and the program's name; program headers are given with what reading them and their segments yields. VmImage.ExecShows takes arguments of fewer than 4096 bytes, which is what sys_exec can pass.
- kernel/virtio_disk.c: initialisation and the device's registers. The caller of virtio_disk_rw holds the buffer's sleep lock, so no two requests are about one buffer.
- user/umalloc.c: addresses are multiples of the header's size; what sbrk answers is a parameter.
- user/sh.c: reading lines, history, completion, runcmd and the constructors' use of malloc. Redirections are collected and put around the simple command at its end, where the code puts them around it while its arguments are still being added; the trees are the same.
- user/grep.c and user/find.c: reading files, walking directories and everything but the matchers.
- Pipe.FreedIsIdle: an end of a pipe closes only when nobody is inside a call on that end; this guard of the step stands for the reference count of kernel/file.c, which is not modelled.
- Umalloc.MallocWorks: sizes are not cut to 32 bits; Umalloc.SizesFit says when that makes no difference.
- kernel/console.c, kernel/uart.c, kernel/trap.c, kernel/plic.c, kernel/start.c, kernel/printf.c, kernel/sysfile.c, the assembly files and the remaining user programs.
