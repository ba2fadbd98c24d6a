# xv6 kernels: logging, memory, files, processes and two user programs

A Dafny model of the difficult parts of three modified copies of xv6 for RISC-V, with proofs.
The code that works by changing things is modelled by classes whose methods change the same
things in the same order; protocols between processors or processes are state machines whose
steps are as small as the locks of the source allow. Every method is proved against an abstract
description (a flat disk, a flat memory, a byte sequence, a set of blocks), and the theorems are
about that description over all inputs, all runs or all interleavings.

| file | what it models |
|---|---|
| `CrashSafety.dfy`, `BufferCache.dfy`, `WriteAheadLog.dfy` | the write-ahead log over the buffer cache: log.c and bio.c |
| `LogSpace.dfy` | the reservation protocol of begin_op, log_write and end_op |
| `InodeTree.dfy`, `FileSystem.dfy` | block allocation, direct, indirect and doubly indirect blocks, readi, writei, itrunc, filewrite |
| `FsLog.dfy`, `FsInputs.dfy` | which blocks these log, exactly and counted; and a disk on which one chunk logs too many |
| `CrashFiles.dfy` | files on a disk that may crash: the file system on top of the log |
| `CowMemory.dfy`, `Sv39.dfy`, `TablePages.dfy`, `VirtualMemory.dfy` | copy-on-write memory on three-level page tables (section 4.4 of the RISC-V Privileged Architecture) |
| `CowFaults.dfy`, `FaultRuns.dfy` | the unlocked steps of page_change by several processors |
| `Wakeup.dfy`, `ProcessTree.dfy`, `Settling.dfy` | fork, exit, wait, sleep, wakeup and kill |
| `RunQueue.dfy`, `Scheduler.dfy` | the FCFS and MLFQ scheduler |
| `Threads.dfy` | thread groups that share a page table |
| `Umalloc.dfy` | the allocator of section 8.7 of The C Programming Language, 2nd edition |
| `Grep.dfy` | the pattern matcher and the buffer loop of grep |
| `Common.dfy` | shared constants, and sizes of sets |

What stands for the world outside: the disk is a sequence of blocks written one at a time, a crash
is possible between any two writes, and the contents of memory are lost in it. The bytes a user
buffer can supply or take, whether `sbrk` is granted, the sizes of reads and the schedule are
parameters or choices of the caller. Locks are atomic steps, or explicit where they are held
across steps.

Where the source does not do what it is meant to do, the model follows the source and the exact
condition is a theorem:

- `log_write` checks for room before it looks for the block in the log, so logging a block again
  panics when the log is full (`LogSpace.PanicsOnlyWhenFull`, `LogSpace.FullLogPanics`).
- LOGSIZE equals NBUF, so a full transaction pins every buffer and its commit cannot read a log
  block (`WriteAheadLog.CommitNeedsABuffer`, `WriteAheadLog.FullTransactionPanics`).
- A chunk of `filewrite` can log more than MAXOPBLOCKS blocks. It does exactly when the slots it
  makes dirty and the bitmap blocks of the free blocks it takes are MAXOPBLOCKS or more
  (`FileSystem.ChunkLogBound`); on the disk of `FsInputs.dfy` a chunk logs 11
  (`FsInputs.WriteTooMuch`). With at most two bitmap blocks it never happens.
- `writei` whose source cannot be read to the end of a chunk leaves the readable bytes in the block,
  uncounted. This happens exactly when the source can be read up to somewhere inside a block and
  there is room as far as that block (`FileSystem.Fs.WriteLoop`). The block is in the log exactly
  when it was before or was allocated in this call (`FileSystem.Fs.Writei`); `FsInputs.StrayUnlogged`
  and `FsInputs.StrayLogged` are one input of each kind. The bytes of an unlogged block are lost when
  its buffer is recycled (`BufferCache.Cache.Brelse`, `BufferCache.Cache.Bget`), and after a crash no
  uncounted byte is in any file (`CrashFiles.WriteAtomic`).
- After a fork every page can be stored to, also one that was read-only (`CowMemory.ExtraStores`).
- A failed `uvmcopy` leaves the parent's pages marked copy-on-write, up to the one that failed
  (`VirtualMemory.Vm.Uvmcopy`).
- `malloc` passes the size to `sbrk` as an `int`. The block it returns lies below the break exactly
  when it has less than 2^27 units (`Umalloc.Heap.Malloc`, `Umalloc.RequestFits`); malloc(0xFFFFFFFF)
  gets 16 bytes and hands out 4 GiB (`Umalloc.HugeRequest`).
- `grep` stops at a line that does not fit its buffer (`Grep.PrintsAll`, `Grep.LongLineLost`).
- `itrunc` of one file can log more than MAXOPBLOCKS blocks, exactly when its blocks lie in
  MAXOPBLOCKS bitmap blocks or more (`FileSystem.Fs.Itrunc`, `FsInputs.TruncTooMuch`).
- `main_thread->cnt` is never decremented, and `cnt * PGSIZE` is a product of two `int`s: the 524288th
  clone of a group panics, however few threads are alive (`Threads.FrameAddrIs`,
  `Threads.CloneOverflows`). `uvmunmap` frees no page-table page, so every 512 clones cost a page for
  good, and clone panics as well when there is none (`Threads.TablesNeeded`). With enough pages nothing
  else goes wrong before that (`Threads.CloneNeverRemaps`, `Threads.ThreadTable.Clone`).
- `join` with an address that cannot be stored to releases its locks twice and panics
  (`Threads.ThreadTable.Join`); a failed `growproc` returns with `wait_lock` held
  (`Threads.ThreadTable.Growproc`).
- `clockintr` holds `schedule_lock` around `wakeup`, which takes it again: a process that sleeps on the
  ticks makes the next tick panic (`Scheduler.Sched.Tick`, `Scheduler.SleepThenTick`).
- `setpriority` of another process returns with that process's lock held
  (`Scheduler.Sched.SetPriority`).
- `wait` looks at `killed` before `sleep` takes the process's lock: a `kill` in between, and no other,
  leaves a killed process asleep in `wait` until a child exits (`ProcessTree.KillMissed`,
  `ProcessTree.KilledAsleep`).
- `kill` takes an unused slot for a process with pid 0, and `allocproc` does not clear `killed`: the
  next process in that slot starts killed (`ProcessTree.KilledStays`).

## Model

| member | source | states |
|---|---|---|
| CrashSafety.RunRefinesAtomicStore | virtual memory & file system/kernel/log.c:68-123 | over every run of commits and crashes, of any length, the home blocks are those of an atomic store that applied, in order, exactly the transactions whose header write was reached |
| CrashSafety.CommitAtomic | virtual memory & file system/kernel/log.c:178-203 | a crash after any number of block writes of a commit, followed by recoveries that crash any number of times, leaves all of the transaction or none of it on the home blocks; which one depends only on the header write |
| CrashSafety.CrashBeforeCommit | virtual memory & file system/kernel/log.c:178-203 | before the header write, recovery leaves every home block as it was |
| CrashSafety.CrashAfterCommit | virtual memory & file system/kernel/log.c:193-203 | from the header write on, recovery completes the transaction |
| CrashSafety.RepeatedRecovery | virtual memory & file system/kernel/log.c:116-123 | however often recovery itself is interrupted, the home blocks end as if it had run once and the log is empty |
| CrashSafety.RecoveryRestartable | virtual memory & file system/kernel/log.c:116-123 | recovery interrupted after any of its own writes and started again gives the same home blocks |
| CrashSafety.RecoverEffect | virtual memory & file system/kernel/log.c:68-123 | what recovery produces: every logged block at its home, an empty header, nothing else changed |
| CrashSafety.CommitIsLogThenRecover | virtual memory & file system/kernel/log.c:193-203 | the writes of a commit are the log part followed by exactly the writes that recovery would issue at that point |
| CrashSafety.CommitCompletes | virtual memory & file system/kernel/log.c:193-203 | a commit that is not interrupted leaves all its blocks home and the log empty |
| CrashSafety.HeaderReadsBack | virtual memory & file system/kernel/log.c:85-114 | the header that write_head puts on disk is the one read_head finds |
| CrashSafety.LogPrefix | virtual memory & file system/kernel/log.c:178-191 | the first k writes of write_log change the log data region and nothing else |
| CrashSafety.InstallPrefix | virtual memory & file system/kernel/log.c:68-83 | the first k installs change exactly those home blocks |
| CrashSafety.StepRefines | virtual memory & file system/kernel/log.c:193-203 | one commit, complete or crashed, is one step of the atomic store |
| CrashSafety.RunDiskSnoc | virtual memory & file system/kernel/log.c:193-203 | one more commit at the end of a run acts on the disk that the run left |
| BufferCache.Cache.constructor | virtual memory & file system/kernel/bio.c:36-53 | after binit every buffer is on the list, the last one first, nothing is cached, and the cache shows what the disk holds |
| BufferCache.Cache.FindCached | virtual memory & file system/kernel/bio.c:65-73 | the walk along next finds the buffer of the block if and only if one caches it |
| BufferCache.Cache.FindUnused | virtual memory & file system/kernel/bio.c:75-87 | the walk along prev finds the least recently used unreferenced buffer, or none exactly when every buffer is referenced |
| BufferCache.Cache.Bget | virtual memory & file system/kernel/bio.c:58-89 | the buffer of the block, or the least recently used unreferenced one; it fails exactly when the block is not cached and every buffer is referenced; the block is then cached once; a lost change of the block that was there before is undone |
| BufferCache.Cache.Bread | virtual memory & file system/kernel/bio.c:92-103 | the locked buffer holds the current contents of the block, and no block changes unless a lost change goes with the buffer that is recycled |
| BufferCache.Cache.Lock | virtual memory & file system/kernel/bio.c:70-71 | acquiresleep on a referenced, unlocked buffer |
| BufferCache.Cache.ReadIn | virtual memory & file system/kernel/bio.c:97-102 | the disk read of a buffer that was not valid |
| BufferCache.Cache.SetData | virtual memory & file system/kernel/bio.c:92-103 | the holder of a buffer changes one block of the view and nothing on disk |
| BufferCache.Cache.Bwrite | virtual memory & file system/kernel/bio.c:106-112 | exactly this block of the disk becomes what the buffer holds |
| BufferCache.Cache.Brelse | virtual memory & file system/kernel/bio.c:116-137 | one reference goes; with the last one the buffer moves to the front, and a change that was neither written nor pinned is lost |
| BufferCache.Cache.Recycle | virtual memory & file system/kernel/bio.c:77-84 | an unreferenced buffer is given to another block; a lost change of its old block is gone and nothing else changes |
| BufferCache.RecycledKeeps | virtual memory & file system/kernel/bio.c:77-84 | recycling keeps the cache coherent with a view in which a lost change is undone |
| BufferCache.Cache.MoveToFront | virtual memory & file system/kernel/bio.c:127-134 | the list surgery: the ring stays a ring of all buffers with this one first |
| BufferCache.Cache.Bpin | virtual memory & file system/kernel/bio.c:139-144 | one more reference keeps the block cached |
| BufferCache.Cache.Bunpin | virtual memory & file system/kernel/bio.c:146-151 | one reference less; the last one only over an up-to-date disk |
| BufferCache.MoveIsPermutation | virtual memory & file system/kernel/bio.c:126-134 | moving to the front loses and duplicates no buffer and keeps the others in order |
| BufferCache.MoveKeepsRing | virtual memory & file system/kernel/bio.c:127-134 | the six pointer assignments of brelse turn the ring into the ring with the buffer in front |
| BufferCache.UnlinkKeepsRing | virtual memory & file system/kernel/bio.c:128-129 | the two assignments that unlink a buffer |
| BufferCache.PushKeepsRing | virtual memory & file system/kernel/bio.c:130-133 | the four assignments that link it in at the front |
| BufferCache.AllIndices | virtual memory & file system/kernel/bio.c:46-52 | a list of NBUF distinct buffers holds every buffer |
| BufferCache.OnlyOneCopy | virtual memory & file system/kernel/bio.c:65-73 | no block is cached twice |
| BufferCache.CleanWhenOutside | virtual memory & file system/kernel/bio.c:75-87 | a block without a valid buffer is up to date on disk, so a read from disk gives its contents |
| WriteAheadLog.CrashKeepsOldOrNew | virtual memory & file system/kernel/log.c:178-203 | for every crash point of the commit, run through the cache, every home block is as it was on disk or every home block is as the file system last left it |
| WriteAheadLog.CommitNeedsABuffer | virtual memory & file system/kernel/log.c:178-203 | with no buffer in use, the first bget of a commit panics exactly when the transaction has NBUF blocks, because all of them are pinned |
| WriteAheadLog.FullTransactionPanics | virtual memory & file system/kernel/log.c:178-203 | states in which it does: LOGSIZE consecutive blocks, logged, pinned and released, on any disk they fit on |
| WriteAheadLog.Log.Commit | virtual memory & file system/kernel/log.c:193-203 | the disk writes issued are exactly the commit sequence with the last contents of every logged block; afterwards nothing is logged or pinned and every home block is on disk |
| WriteAheadLog.Log.WriteAhead | virtual memory & file system/kernel/log.c:196-198 | the first half of a commit, up to the header write |
| WriteAheadLog.Log.BringHome | virtual memory & file system/kernel/log.c:199-201 | the second half: everything home, header cleared |
| WriteAheadLog.Log.WriteLog | virtual memory & file system/kernel/log.c:178-191 | every block of the transaction goes to the log with its last logged contents |
| WriteAheadLog.Log.CopyToLog | virtual memory & file system/kernel/log.c:184-189 | one round of write_log: the cached contents reach the log block on disk |
| WriteAheadLog.Log.InstallTrans | virtual memory & file system/kernel/log.c:68-83 | every block of the transaction goes home and no pin stays |
| WriteAheadLog.Log.Install | virtual memory & file system/kernel/log.c:74-81 | one round of install_trans(0): the home block is on disk and its pin is dropped |
| WriteAheadLog.Log.WriteHead | virtual memory & file system/kernel/log.c:102-114 | the header block on disk names the blocks; no other block changes |
| WriteAheadLog.Log.LogWrite | virtual memory & file system/kernel/log.c:214-235 | the block is in the transaction once, however often it is logged, and pinned once |
| WriteAheadLog.Log.FindLogged | virtual memory & file system/kernel/log.c:225-228 | the scan for absorption: the place of the block in the transaction, or its length |
| WriteAheadLog.Log.Modify | virtual memory & file system/kernel/log.c:205-213 | a change in memory reaches the view and not the disk |
| WriteAheadLog.Log.Bread | virtual memory & file system/kernel/bio.c:92-103 | reading through the log gives the last contents anyone put there; it fails exactly when the block is not cached and every buffer is referenced |
| WriteAheadLog.Log.Brelse | virtual memory & file system/kernel/bio.c:116-137 | the invariant of the log survives the release of a buffer if and only if its block is unchanged or logged; otherwise the change is lost unless somebody waits for the buffer |
| WriteAheadLog.Log.RecoverFromLog | virtual memory & file system/kernel/log.c:116-123 | the writes issued are exactly the recovery sequence, and then the log is empty over an up-to-date disk |
| WriteAheadLog.Log.ReadHead | virtual memory & file system/kernel/log.c:86-97 | the in-memory header becomes the one on disk |
| WriteAheadLog.Log.ReinstallAll | virtual memory & file system/kernel/log.c:68-83 | install_trans(1): every logged block goes home, nothing is unpinned |
| LogSpace.RoomForNewBlocks | virtual memory & file system/kernel/log.c:126-175 | in every interleaving of operations that keep to MAXOPBLOCKS distinct blocks, log_write of a block the operation has not logged yet does not panic, and neither does end_op |
| LogSpace.PanicsOnlyWhenFull | virtual memory & file system/kernel/log.c:214-235 | the exact condition: a disciplined log_write panics if and only if the log holds LOGSIZE blocks, and then the block is in the log already and every open operation has used up its share |
| LogSpace.FullLogPanics | virtual memory & file system/kernel/log.c:219-228 | a run that gets there: three operations of ten blocks each fill the log, and logging one of the blocks again panics because room is checked before absorption |
| LogSpace.CommitIsAlone | virtual memory & file system/kernel/log.c:146-175 | in every interleaving, no operation is open, none can begin and nobody else commits while a commit is under way |
| LogSpace.StepKeepsInv | virtual memory & file system/kernel/log.c:126-175 | blocks in the log plus blocks still reserved never exceed LOGSIZE, outstanding counts the open operations, somebody commits while committing is set, and with nobody inside the log is empty |
| LogSpace.WriteKeeps | virtual memory & file system/kernel/log.c:214-235 | a block that is new to the log comes out of the share of the operation that logs it |
| LogSpace.RunKeepsInv | virtual memory & file system/kernel/log.c:126-175 | the same over whole runs |
| LogSpace.LogIs | virtual memory & file system/kernel/log.c:126-235 | in every interleaving the log holds exactly the blocks logged since the last commit, read off the calls, and an operation is open exactly from its begin_op to its end_op and charged with exactly what it has logged |
| LogSpace.BeginAfterCommit | virtual memory & file system/kernel/log.c:193-203 | in every interleaving, once a commit is done the log is empty, nobody is inside an operation and every process can begin |
| LogSpace.BeginWhenIdle | virtual memory & file system/kernel/log.c:126-143 | in every interleaving, when nobody is inside an operation or a commit the log is empty and every process can begin |
| LogSpace.Drains | virtual memory & file system/kernel/log.c:146-175 | from every such state the open operations can end, and the last of them commits; then the log is empty |
| FileSystem.Fs.Balloc | virtual memory & file system/kernel/fs.c:65-88 | the first free block, marked used and zeroed; 0 exactly when the disk is full; ownership is kept |
| FileSystem.Fs.Bfree | virtual memory & file system/kernel/fs.c:91-105 | exactly one bitmap bit is cleared; the block was in use |
| FileSystem.Fs.constructor | virtual memory & file system/kernel/fs.c:29-47 | a file system handed over in a consistent state satisfies the invariant |
| FileSystem.Fs.Bmap | virtual memory & file system/kernel/fs.c:382-452 | the block of the bn-th file block in all three ranges; 0 exactly when a block was needed and the disk was full; blocks allocated before a failure stay attached; no byte of any file changes; exactly what the allocations touch is logged |
| FileSystem.Fs.BmapSingle | virtual memory & file system/kernel/fs.c:399-418 | the single indirect range of bmap |
| FileSystem.Fs.BmapMiddle | virtual memory & file system/kernel/fs.c:421-437 | the second-level block of the doubly indirect range |
| FileSystem.Fs.BmapDouble | virtual memory & file system/kernel/fs.c:420-448 | the doubly indirect range of bmap |
| FileSystem.Fs.LoadOrAlloc | virtual memory & file system/kernel/fs.c:409-415 | reading a slot and filling it with the lowest free block if it is empty; exactly the new block, its bitmap block and the block that names it are logged |
| FileSystem.Fs.Readi | virtual memory & file system/kernel/fs.c:523-548 | exactly the slice of the file, cut at its end; -1 exactly when the destination cannot take it, and then what was copied out is all that fits up to the beginning of a block; nothing is allocated |
| FileSystem.Fs.ReadLoop | virtual memory & file system/kernel/fs.c:534-547 | the loop of readi for a range inside the file |
| FileSystem.Fs.ReadBlock | virtual memory & file system/kernel/fs.c:535-545 | one round of readi |
| FileSystem.Fs.Writei | virtual memory & file system/kernel/fs.c:557-591 | the bytes of the source are spliced in at off; everything is counted if and only if the source can be read and there are free blocks for every slot missing on the way; refused exactly when the range starts past the end, wraps or passes the largest size; no other file changes; the set of logged blocks, exactly, and its size from the state before the call; when bytes are left uncounted and whether their block is logged, both as equivalences |
| FileSystem.Fs.WriteLoop | virtual memory & file system/kernel/fs.c:568-580 | bytes are left in a block uncounted if and only if the source can be read up to somewhere inside a block and there is room as far as that block; then exactly up to there |
| FileSystem.Fs.WriteRound | virtual memory & file system/kernel/fs.c:569-579 | one round of writei; when it stops, which of the two reasons it was, how far the bytes got and which block they are in |
| FileSystem.Fs.PutChunk | virtual memory & file system/kernel/fs.c:572-579 | the bytes of one chunk, and only those, change |
| FileSystem.Fs.Itrunc | virtual memory & file system/kernel/fs.c:456-505 | the file becomes empty, exactly its own blocks become free, every other file is as it was, and no free block is freed; exactly the bitmap blocks of its blocks and the inode block are logged, more than MAXOPBLOCKS if and only if those are MAXOPBLOCKS bitmap blocks or more |
| FileSystem.MapsStep | virtual memory & file system/kernel/fs.c:91-105 | freeing the block of one slot logs its bitmap block and no other |
| FileSystem.Fs.TruncDirect | virtual memory & file system/kernel/fs.c:463-468 | the direct blocks are freed |
| FileSystem.Fs.TruncSingle | virtual memory & file system/kernel/fs.c:470-480 | the indirect block and the blocks it names are freed |
| FileSystem.Fs.TruncMiddle | virtual memory & file system/kernel/fs.c:486-496 | one second-level block and the blocks it names are freed |
| FileSystem.Fs.TruncDouble | virtual memory & file system/kernel/fs.c:482-501 | the doubly indirect block and both levels below it are freed |
| FileSystem.Fs.FreeSlot | virtual memory & file system/kernel/fs.c:474-475 | bfree of the block in a slot never meets a free block |
| FileSystem.Fs.FileWrite | virtual memory & file system/kernel/file.c:148-175 | the whole request in transactions of at most three blocks; the length is returned if and only if the request starts inside the file, stays below the largest size, the source can be read and there are free blocks for the whole way; otherwise -1; how many bytes are counted is a function of the state before the call |
| FileSystem.Fs.FileRound | virtual memory & file system/kernel/file.c:157-174 | one round: a complete chunk carries on, and a chunk that is refused or cut short decides how far the whole request gets |
| FileSystem.ChunkFurthest | virtual memory & file system/kernel/file.c:157-174 | what a chunk counts, added to the chunks before it, is how far a request that ends with the chunk gets from the state before the first |
| FileSystem.LongerNoFurther | virtual memory & file system/kernel/file.c:168-171 | a request that was cut short would not have got further had it been longer |
| FsLog.RoomAfter | virtual memory & file system/kernel/fs.c:568-571 | after a complete write there is room for more exactly if there was room for both together before it |
| FileSystem.EffectsCompose | virtual memory & file system/kernel/file.c:157-174 | writing one chunk and then the next is writing both at once |
| FileSystem.ChunkLogBound | virtual memory & file system/kernel/file.c:149-155 | a chunk logs more than MAXOPBLOCKS blocks if and only if the slots it makes dirty and the bitmap blocks of the free blocks it takes are MAXOPBLOCKS or more; that needs three bitmap blocks, so never on a disk of two |
| FileSystem.StrayInLog | virtual memory & file system/kernel/fs.c:573-576 | the block in which uncounted bytes were left is logged if and only if it was logged before or was allocated in this call |
| FileSystem.FinishCounts | virtual memory & file system/kernel/fs.c:557-591 | the three statements about the log of a whole writei |
| FsLog.ExactCount | virtual memory & file system/kernel/fs.c:557-591 | a complete write logs exactly as many blocks as slots get dirty, plus the bitmap blocks of the lowest free blocks, as many as slots were missing, plus one: all from the state before the call |
| FsLog.FreshExactly | virtual memory & file system/kernel/fs.c:65-88 | the blocks allocated are exactly the lowest free ones, as many as slots were missing |
| FsLog.AreaSize | virtual memory & file system/kernel/fs.c:382-452 | the logged blocks of the data area correspond one to one to the slots that get dirty |
| FsLog.MappedHadRoom | virtual memory & file system/kernel/fs.c:568-571 | if the whole way is mapped afterwards there were enough free blocks before |
| FsLog.FullHadNoRoom | virtual memory & file system/kernel/fs.c:568-571 | if bmap found the disk full there were not |
| FsLog.AllocLogTrans | virtual memory & file system/kernel/fs.c:382-452 | the log of two allocations is the union of their logs, whatever indirect blocks are new |
| FsLog.WaysBound | virtual memory & file system/kernel/file.c:149-155 | the way to three blocks worth of bytes has at most four data and three indirect blocks |
| FsLog.EmptyFsOk | virtual memory & file system/kernel/fs.c:29-47 | a disk without files satisfies the invariant |
| FsInputs.DiskOk | virtual memory & file system/kernel/fs.c:382-452 | a disk of 200000 blocks with 61 files, on which the allocations of one chunk fall into three bitmap blocks, satisfies the invariant |
| FsInputs.ChunkOverflows | virtual memory & file system/kernel/file.c:149-155 | on that disk three blocks worth of bytes at the end of file 0 log MAXOPBLOCKS + 1 blocks |
| FsInputs.WriteTooMuch | virtual memory & file system/kernel/file.c:155-166 | the model of writei, called like that, logs 11 blocks |
| FsInputs.ScatterOk | virtual memory & file system/kernel/fs.c:382-452 | a disk with one file of 11 blocks in 11 bitmap blocks satisfies the invariant |
| FsInputs.TruncTooMuch | virtual memory & file system/kernel/fs.c:456-505 | itrunc of that file logs 12 blocks |
| FsInputs.StrayUnlogged | virtual memory & file system/kernel/fs.c:573-576 | an overwrite of two bytes of which one can be read: nothing counted, the byte is in the file, its block is not logged |
| FsInputs.StrayLogged | virtual memory & file system/kernel/fs.c:573-576 | the same at the end of a file whose next block is missing: the block is logged |
| CrashFiles.FileWriteOnDisk | virtual memory & file system/kernel/file.c:148-175 | filewrite on a disk, stopped in any chunk after any number of block writes of its commit and in any recoveries: the disk is what a run of one transaction per chunk makes of the disk before; exactly the chunks that are reached, up to the one in which the machine stops, have a transaction, each with the blocks its writei logged; and the file holds exactly the bytes of the chunks before, and what the last one counted if and only if its header was written |
| CrashFiles.OutcomeCounts | virtual memory & file system/kernel/file.c:148-175 | without a crash everything is on the disk if and only if filewrite returns the length, on the same condition on the state before |
| CrashFiles.TransactionsSnoc | virtual memory & file system/kernel/file.c:162-167 | one more chunk adds its transaction at the end of the run |
| CrashFiles.StandNext | virtual memory & file system/kernel/file.c:157-174 | a complete chunk and its commit: the disk holds what is in memory again |
| CrashFiles.WriteAtomic | virtual memory & file system/kernel/fs.c:557-591 | after a crash anywhere in the commit of a writei the disk holds the files as they were, or exactly the counted bytes written; bytes left uncounted in a buffer are gone in either case |
| CrashFiles.OperationAtomic | virtual memory & file system/kernel/log.c:178-203 | for any operation that logs the inode and bitmap blocks it changes: a crash anywhere leaves the old image or the new one with unlogged blocks as they were |
| CrashFiles.WriteOp | virtual memory & file system/kernel/fs.c:557-591 | writei in a transaction of its own does what the crash theorem asks, and one chunk always fits the log |
| CrashFiles.KeptEffect | virtual memory & file system/kernel/fs.c:568-588 | with the unlogged block undone, the file system is consistent and exactly the counted bytes are written |
| CrashFiles.WriteCovers | virtual memory & file system/kernel/fs.c:61-105 | every bitmap and inode block that writei changes is logged |
| CrashFiles.HoldsOnce | virtual memory & file system/kernel/fs.h:8-53 | a disk image determines the inodes, the free bitmap and the data blocks |
| CrashFiles.FilesFound | virtual memory & file system/kernel/fs.h:8-53 | any two file systems that a disk holds have the same files |
| CrashFiles.ChunkCrashed | virtual memory & file system/kernel/file.c:162-167 | the disk after a chunk whose commit is interrupted after so many writes, and its recoveries: what the earlier chunks wrote, and all that this one counted if and only if the header write was reached |
| CrashFiles.ChunkCommitted | virtual memory & file system/kernel/file.c:162-167 | the disk after a chunk whose commit completes |
| CrashFiles.TruncAtomic | virtual memory & file system/kernel/fs.c:456-505 | after a crash anywhere in the commit of an itrunc the disk holds the files as they were, or with that file empty |
| CrashFiles.TruncOp | virtual memory & file system/kernel/fs.c:456-505 | itrunc in a transaction of its own does what the crash theorem asks |
| CrashFiles.TruncCovers | virtual memory & file system/kernel/fs.c:456-505 | every bitmap and inode block that itrunc changes is logged |
| CrashFiles.TruncFits | virtual memory & file system/kernel/fs.c:456-505 | on a disk of fewer than LOGSIZE bitmap blocks the transaction of an itrunc fits the log |
| FileSystem.AllocStep | virtual memory & file system/kernel/fs.c:382-452 | a free block, zeroed and put into an empty slot, keeps every invariant of the disk |
| FileSystem.BelowSizeIsMapped | virtual memory & file system/kernel/fs.c:534-537 | every position below the size lies in a mapped block |
| InodeTree.NeverShared | virtual memory & file system/kernel/fs.c:382-505 | no block is in two slots, of one inode or of two, and no slot names a free or a metadata block |
| InodeTree.DataPathInjective | virtual memory & file system/kernel/fs.c:382-452 | distinct file blocks have distinct slots in the direct, single and double ranges |
| InodeTree.DataPathIsLeaf | virtual memory & file system/kernel/fs.c:382-452 | no slot lies inside a data block |
| InodeTree.FillKeeps | virtual memory & file system/kernel/fs.c:382-452 | filling an empty slot with a fresh block gives that block one owner and changes no byte of any file |
| InodeTree.ZeroKeeps | virtual memory & file system/kernel/fs.c:50-59 | zeroing a free block changes no slot and no file |
| InodeTree.WriteBlock | virtual memory & file system/kernel/fs.c:572-579 | new contents of a data block change that block of that file and nothing else |
| InodeTree.TruncKeeps | virtual memory & file system/kernel/fs.c:456-505 | emptying a file takes away exactly its own blocks |
| InodeTree.RankInjective | virtual memory & file system/kernel/fs.c:463-501 | itrunc visits every slot of an inode once |
| InodeTree.WriteChunk | virtual memory & file system/kernel/fs.c:572-579 | one chunk extends the part of the file already written |
| InodeTree.ContentsSpliced | virtual memory & file system/kernel/fs.c:557-591 | a write, seen on the byte sequence of the file, is a splice |
| CowMemory.RunRefinesEager | virtual memory & file system/kernel/vm.c:314-341 | over every run of single-page steps of fork, fault, copyout, sbrk and exit, in any interleaving of address spaces, every address space reads the bytes it would read under eager copying, with the same permissions to read, to execute and for user code |
| CowMemory.OthersCannotChange | virtual memory & file system/kernel/paull04_vm.c:53-69 | isolation: a run without a store to, or unmapping of, a page leaves its bytes alone, whatever happens to the pages it shares |
| CowMemory.StepKeepsInv | virtual memory & file system/kernel/paull04_vm.c:24-69 | pgref of a page is the number of user PTEs that map it, free pages are unmapped, a writable page has one mapping and is not marked copy-on-write, after every step |
| CowMemory.StepRefines | virtual memory & file system/kernel/paull04_vm.c:53-85 | every step does to the contents and to the permissions other than storing what eager copying does |
| CowMemory.PagesPartition | virtual memory & file system/kernel/kalloc.c:33-82 | free, user and kernel pages partition memory, and the only ways from one class to another |
| CowMemory.ExtraStores | virtual memory & file system/kernel/vm.c:326-329 | the permission to store is not refined: after fork every store goes through, which agrees with eager copying exactly when the page was writable before |
| CowMemory.EagerKeeps | virtual memory & file system/kernel/vm.c:314-341 | under eager copying a page changes only by stores through its own mapping |
| Sv39.PagesNeverAlias | virtual memory & file system/kernel/vm.c:85-103 | distinct virtual pages have distinct leaf slots |
| Sv39.Parts | virtual memory & file system/kernel/vm.c:85-103 | the three indices of walk are the fields of the virtual page number, nine bits each, the highest first |
| Sv39.AddKeeps | virtual memory & file system/kernel/vm.c:94-100 | a new table page gets one place, and no leaf PTE of any address space changes |
| Sv39.PutKeeps | virtual memory & file system/kernel/vm.c:143-172 | writing one leaf PTE changes that page of that address space only |
| Sv39.NewRootKeeps | virtual memory & file system/kernel/vm.c:203-212 | a new root is an empty address space and disturbs no other |
| Sv39.DropKeeps | virtual memory & file system/kernel/vm.c:280-296 | without the table pages of one address space every other one is as it was |
| VirtualMemory.Vm.constructor | virtual memory & file system/kernel/kalloc.c:26-31 | at boot the invariants hold and all memory is the kernel's |
| VirtualMemory.Vm.Freerange | virtual memory & file system/kernel/kalloc.c:33-40 | every page of the range is on the free list, once |
| VirtualMemory.Vm.Kalloc | virtual memory & file system/kernel/kalloc.c:68-82 | the head of the free list filled with 5s, 0 exactly when it is empty; no user byte changes |
| VirtualMemory.Vm.Kfree | virtual memory & file system/kernel/kalloc.c:46-63 | a kernel page, filled with 1s, goes to the front of the free list |
| VirtualMemory.Vm.Walk | virtual memory & file system/kernel/vm.c:85-103 | the table page of the PTE; missing tables come from free pages, all of which become table pages of this address space; no leaf PTE changes; with alloc it succeeds if and only if there is a free page for every missing table |
| VirtualMemory.Vm.MakeTable | virtual memory & file system/kernel/vm.c:94-100 | one missing table, or an empty free list and therefore too few pages from the start |
| TablePages.WalkingShort | virtual memory & file system/kernel/vm.c:94-97 | a walk that meets an empty free list had fewer pages than tables were missing |
| TablePages.ShortThen | virtual memory & file system/kernel/vm.c:143-172 | what is too little after something was taken was too little for all of it before |
| TablePages.SpentThen | virtual memory & file system/kernel/vm.c:143-172 | pages taken one after the other add up: one for every table that was missing, and the rest |
| TablePages.WaysOfAll | virtual memory & file system/kernel/vm.c:85-103 | the tables that a range needs are those on the way to its pages |
| VirtualMemory.Vm.SetPte | virtual memory & file system/kernel/vm.c:165-166 | exactly one leaf PTE changes |
| VirtualMemory.Vm.Mappages | virtual memory & file system/kernel/vm.c:143-172 | exactly the range is mapped; it succeeds if and only if there is a free page for every missing table; on failure exactly the pages before are mapped, and every page taken became a table |
| VirtualMemory.Vm.MapOne | virtual memory & file system/kernel/vm.c:143-172 | one user page, with the flat map following the tables; success if and only if there are free pages for the missing tables |
| VirtualMemory.Vm.UnmapOne | virtual memory & file system/kernel/vm.c:187-197 | one mapping goes, and the page with its last mapping |
| VirtualMemory.Vm.Uvmunmap | virtual memory & file system/kernel/vm.c:177-199 | exactly the range disappears; a page becomes free exactly when its last mapping went |
| VirtualMemory.Vm.AllocOne | virtual memory & file system/kernel/vm.c:242-256 | one zeroed, counted page is mapped, or nothing is; success if and only if there is one free page more than missing tables |
| VirtualMemory.Vm.MapZeroed | virtual memory & file system/kernel/vm.c:249-255 | mappages and increment_ref, or kfree; success if and only if there are free pages for the missing tables |
| VirtualMemory.Vm.Uvmalloc | virtual memory & file system/kernel/vm.c:233-258 | zeroed pages with the permissions asked for up to the new size if and only if the free list has as many pages as new pages and missing tables; otherwise the old mapping and counts exactly, and every page is free again that did not become a table |
| VirtualMemory.Vm.Rollback | virtual memory & file system/kernel/vm.c:243-253 | the error path: mapping, counts and leaf pages are restored |
| VirtualMemory.Vm.Uvmdealloc | virtual memory & file system/kernel/vm.c:264-276 | exactly the pages between the two sizes go |
| VirtualMemory.Vm.CopyOne | virtual memory & file system/kernel/vm.c:320-333 | one round of the copy-on-write uvmcopy; success if and only if there are free pages for the missing tables of the child |
| VirtualMemory.Vm.MarkPage | virtual memory & file system/kernel/vm.c:321-329 | the parent's PTE loses PTE_W and gets PTE_COW; nothing that anyone reads changes |
| VirtualMemory.Vm.SharePage | virtual memory & file system/kernel/vm.c:330-333 | the same page appears in the child and is counted, if and only if there are free pages for the missing tables |
| VirtualMemory.Vm.Uvmcopy | virtual memory & file system/kernel/vm.c:314-341 | parent and child read what they read after eager copying, if and only if there is a free page for every table the child lacks; otherwise the child has nothing, counts and leaf pages are the old ones, and exactly the parent's pages up to the failing one are marked |
| VirtualMemory.Vm.UvmcopyEager | scheduler/kernel/vm.c:312-340 | the eager fork leaves the same contents as the copy-on-write fork, both meet ReadsForked; it succeeds if and only if there are free pages for the copies and the missing tables |
| VirtualMemory.Vm.EagerOne | scheduler/kernel/vm.c:320-334 | one round of the eager fork: a page of the child's own with the parent's bytes and permissions, if and only if there is one free page more than missing tables |
| VirtualMemory.Vm.PageChange | virtual memory & file system/kernel/paull04_vm.c:53-69 | the page becomes writable and is not copy-on-write any more, and nobody sees a different byte; a copy, in the first free page, exactly when there are other users, otherwise the same page; it fails exactly when a copy is needed and memory is out |
| VirtualMemory.Vm.PagefaultHandler | virtual memory & file system/kernel/paull04_vm.c:77-85 | 0 exactly for a copy-on-write page that can be made writable, otherwise -1 and no change |
| VirtualMemory.Vm.Store | virtual memory & file system/kernel/trap.c:68-75 | a store succeeds exactly when the page is a user page that is writable, or copy-on-write with memory for a copy; then one byte of one address space changes |
| VirtualMemory.Vm.CopyoutPage | virtual memory & file system/kernel/vm.c:365-385 | one round of copyout, through re_page |
| VirtualMemory.Vm.Copyout | virtual memory & file system/kernel/vm.c:359-387 | the bytes appear at the address and no other byte of any address space changes; it stops exactly at the first page that cannot be stored to, with the bytes before it copied |
| VirtualMemory.Vm.Copyin | virtual memory & file system/kernel/vm.c:392-412 | exactly the bytes the address space holds; an error exactly at the first page that is not a user page |
| VirtualMemory.Vm.Freewalk | virtual memory & file system/kernel/vm.c:280-296 | every table page at and below this one goes to the free list once, and no other page does |
| VirtualMemory.Vm.Uvmcreate | virtual memory & file system/kernel/vm.c:203-212 | an empty address space, 0 exactly without memory |
| VirtualMemory.Vm.Uvmfree | virtual memory & file system/kernel/vm.c:300-306 | exactly the unshared leaf pages and the table pages of the address space become free; no other address space changes |
| VirtualMemory.Vm.ProcPagetable | virtual memory & file system/kernel/proc.c:176-206 | TRAMPOLINE and TRAPFRAME mapped and nothing else if and only if there are three free pages; otherwise every page back; the second mapping cannot fail |
| VirtualMemory.Vm.ProcFreepagetable | virtual memory & file system/kernel/proc.c:210-216 | everything the address space had is given up and freewalk meets no leaf |
| VirtualMemory.Vm.Abandon | virtual memory & file system/kernel/proc.c:190-203 | the error paths of proc_pagetable give back every page taken |
| VirtualMemory.Undone | virtual memory & file system/kernel/vm.c:264-276 | once the mappings made since a state are gone, counts are the old ones and only table pages are missing from the free list |
| CowFaults.NeverFreedUnderCopy | virtual memory & file system/kernel/paull04_vm.c:24-69 | in every interleaving of the unlocked steps of page_change, fork and exit by any number of sharers, the old page is neither freed nor about to be while a copy from it is in progress |
| CowFaults.FreedExactlyOnce | virtual memory & file system/kernel/paull04_vm.c:33-42 | in every interleaving the page is freed at most once, and it is freed exactly when nobody has a count and nobody is about to free it |
| CowFaults.RunIsolates | virtual memory & file system/kernel/paull04_vm.c:53-69 | in every interleaving a sharer that is still there sees what it saw before, changed by its own stores and nothing else |
| CowFaults.OnlyOwnStores | virtual memory & file system/kernel/paull04_vm.c:53-69 | no step of anyone else changes what a sharer sees, wherever both are in their faults |
| CowFaults.SoleHolder | virtual memory & file system/kernel/paull04_vm.c:43-51 | a sharer that reads a count of 1 is the only one who can read the page |
| CowFaults.StepKeepsInv | virtual memory & file system/kernel/paull04_vm.c:24-69 | the count is the number of sharers that have not given theirs up, after every step |
| CowFaults.RunKeepsInv | virtual memory & file system/kernel/paull04_vm.c:24-69 | the same over whole runs |
| FaultRuns.FaultAlone | virtual memory & file system/kernel/paull04_vm.c:53-85 | a fault that nobody disturbs: without other users the sharer owns the page in place, otherwise it has a copy of the same bytes and one count is gone, or, without memory, nothing has happened; it can store exactly afterwards |
| FaultRuns.BothCopy | virtual memory & file system/kernel/paull04_vm.c:33-69 | two sharers that both see a count of two: both copy, the second to give up the old page frees it, and each ends with the bytes it had |
| FaultRuns.ForkAlone | virtual memory & file system/kernel/vm.c:322-334 | a fork that nobody disturbs: the child has the bytes, one count more, and both fault on the next store |
| FaultRuns.LeaveAlone | virtual memory & file system/kernel/paull04_vm.c:33-42 | an exit that nobody disturbs: one count less, and the page is freed exactly with the last one |
| FaultRuns.CanGoOn | virtual memory & file system/kernel/paull04_vm.c:53-69 | in every interleaving whoever is in a fault, a fork or an exit can take its next step, and in one way only |
| FaultRuns.RunsEnd | virtual memory & file system/kernel/paull04_vm.c:53-69 | under every schedule the faults, forks and exits under way take a bounded number of steps |
| Umalloc.Heap.constructor | virtual memory & file system/user/umalloc.c:21-22 | a program that has not called malloc satisfies the invariant |
| Umalloc.Heap.Malloc | virtual memory & file system/user/umalloc.c:63-90 | for every 32-bit size: a block that was nobody's, of the fewest units that hold a header and the request; it is the end of the first large enough block after the one where the last search ended, or, if there is none, the end of the heap after one sbrk; 0 exactly when nothing fits and the kernel refuses; no unit is lost; the block lies below the break exactly when it has less than 2^27 units; a fault exactly when the new header is not on a page of the program |
| Umalloc.HugeRequest | virtual memory & file system/user/umalloc.c:54-60 | malloc(0xFFFFFFFF) gets 16 bytes from sbrk and hands out a block of 4 GiB that ends beyond the break |
| Umalloc.Heap.Sbrk | virtual memory & file system/kernel/proc.c:259-275 | growing, shrinking and doing nothing, with what each returns and leaves as the break |
| Umalloc.Heap.Search | virtual memory & file system/user/umalloc.c:74-89 | the loop ends, after morecore within one more round, at the first block that fits |
| Umalloc.Heap.Free | virtual memory & file system/user/umalloc.c:24-44 | exactly that block leaves the live blocks; the list stays circular, ordered, disjoint and coalesced; every free block is one of before or holds the freed one; the next search starts at the free block before it |
| Umalloc.Heap.FindPlace | virtual memory & file system/user/umalloc.c:30-32 | the search loop ends, at the free block before the freed one |
| Umalloc.SearchStops | virtual memory & file system/user/umalloc.c:30-32 | the exit conditions hold at the place of the block and nowhere else |
| Umalloc.Heap.Morecore | virtual memory & file system/user/umalloc.c:46-61 | at least 4096 units more in a free block that is large enough, and the only one if there was none before; 0 and no change exactly when the kernel refuses; a fault exactly when the new header is not on a page of the program, which only requests of 2^27 to 2^28 units can meet |
| Umalloc.Heap.JoinNext | virtual memory & file system/user/umalloc.c:33-37 | the first half of free: the block swallows the free block after it or points to it |
| Umalloc.Heap.JoinPrevious | virtual memory & file system/user/umalloc.c:38-42 | the second half: the free block before swallows it or points to it |
| Umalloc.Heap.TakeFrom | virtual memory & file system/user/umalloc.c:75-84 | an exact fit leaves the list, a larger block loses its tail; the block was not live and ends where the free one ended |
| Umalloc.Heap.StartList | virtual memory & file system/user/umalloc.c:70-73 | the first call makes a list of base alone |
| Umalloc.FullyCoalesced | virtual memory & file system/user/umalloc.c:33-42 | no free block ends where another begins |
| Umalloc.LiveApart | virtual memory & file system/user/umalloc.c:63-90 | a live block overlaps no other block, free or live, and stays between base and the break |
| Umalloc.RequestFits | virtual memory & file system/user/umalloc.c:54 | sbrk is asked for what is meant exactly when the request is below 2^27 units; from there to 2^28 it is asked to shrink, at 2^28 for nothing and at the largest request for 16 bytes |
| Umalloc.UnitsSmallest | virtual memory & file system/user/umalloc.c:69 | the number of units is the smallest that holds a header and the bytes |
| Umalloc.SmallestIsOne | virtual memory & file system/user/umalloc.c:69 | there is one such number, it is 1 exactly for 0 bytes, and one unit less holds fewer bytes than asked for |
| Umalloc.FaultsExactly | virtual memory & file system/user/umalloc.c:57-58 | writing the header of the new block faults exactly if some byte of its two fields is on a page at or beyond the break |
| Umalloc.KeptLast | virtual memory & file system/user/umalloc.c:46-61 | if nothing was large enough before morecore, only the block at the end of the heap is afterwards |
| Umalloc.SizesFit | virtual memory & file system/user/umalloc.c:33-39 | no size overflows its field |
| Umalloc.JoinTiles | virtual memory & file system/user/umalloc.c:33-39 | joining two neighbours keeps every byte in exactly one block |
| Umalloc.SplitTiles | virtual memory & file system/user/umalloc.c:79-81 | splitting a block keeps every byte in exactly one block |
| Umalloc.AbsorbNext | virtual memory & file system/user/umalloc.c:33-35 | joining with the block after |
| Umalloc.InsertNext | virtual memory & file system/user/umalloc.c:36-37 | linking in before the block after |
| Umalloc.MergePrevious | virtual memory & file system/user/umalloc.c:38-40 | joining with the block before |
| Umalloc.LinkPrevious | virtual memory & file system/user/umalloc.c:41-42 | linking in behind the block before |
| Wakeup.NoLostWakeup | virtual memory & file system/kernel/proc.c:346-435 | in every interleaving, whenever wait_lock is free, no process that sleeps in wait, or is past releasing the lock, has a ZOMBIE child, children given to init included |
| Wakeup.SleepsWithLiveChildren | virtual memory & file system/kernel/proc.c:390-435 | from its decision to sleep until it gives up wait_lock all children of the caller of wait are alive |
| Wakeup.StepKeepsInv | virtual memory & file system/kernel/proc.c:330-435 | every step of fork, exit, reparent, wait, sleep, wakeup and kill keeps the invariant |
| Wakeup.RunKeepsInv | virtual memory & file system/kernel/proc.c:330-435 | the same over whole runs from boot |
| Wakeup.LocksKeep | virtual memory & file system/kernel/proc.c:547-574 | exactly one process is in a section of wait_lock when it is taken |
| Wakeup.WhoWaits | virtual memory & file system/kernel/proc.c:547-574 | a process starts to wait only by giving up wait_lock in sleep |
| Wakeup.ParentWoken | virtual memory & file system/kernel/proc.c:578-592 | the parent does not wait any more once wakeup has passed its slot |
| Wakeup.PendingStays | virtual memory & file system/kernel/proc.c:330-341 | the wakeup of init in reparent stays under way until init is awake |
| ProcessTree.WaitDecides | virtual memory & file system/kernel/proc.c:426-433 | in every interleaving, at the end of its scan wait gives up if and only if the caller was killed or no slot has it as parent at that moment, and otherwise goes to sleep with wait_lock held |
| ProcessTree.SleeperHasChild | virtual memory & file system/kernel/proc.c:390-435 | in every interleaving a process that sleeps in wait has a child, and unless it is being woken that child is alive |
| ProcessTree.ParentAlive | virtual memory & file system/kernel/proc.c:330-341 | in every interleaving the parent of every process but init is a process that is neither a ZOMBIE nor past reparent |
| ProcessTree.AllDescend | virtual memory & file system/kernel/proc.c:330-341 | in every interleaving every process descends from init, so parents never form a cycle |
| ProcessTree.LifeSteps | virtual memory & file system/kernel/proc.c:280-615 | in every interleaving a process changes its state only along its life, and only by whom: allocproc, the end of fork, its own sleep, a wakeup on its channel or kill, its own exit when it has no children left, and the wait of its parent, which takes the first ZOMBIE child |
| ProcessTree.KilledStays | virtual memory & file system/kernel/proc.c:598-619 | in every interleaving killed is set by kill, also of an unused slot, and cleared only when a slot is freed |
| ProcessTree.KillMissed | virtual memory & file system/kernel/proc.c:426-433 | in every interleaving a killed process comes to sleep in wait if and only if kill fell between the look at killed and the lock that sleep takes |
| ProcessTree.KilledAsleep | virtual memory & file system/kernel/proc.c:426-433 | a run from boot in which it does, with a child that need never exit |
| ProcessTree.SomeoneSleeps | virtual memory & file system/kernel/proc.c:390-435 | a run from boot after which init is asleep in wait |
| ProcessTree.ForkWaitExit | virtual memory & file system/kernel/proc.c:280-435 | from any state in which nothing else is under way: fork, wait up to sleep, exit of the child, the wakeup and the end of wait bring the process table back to where it was |
| ProcessTree.ForkUndone | virtual memory & file system/kernel/proc.c:280-298 | a fork that finds no memory leaves the process table as it was |
| ProcessTree.SleepElsewhere | virtual memory & file system/kernel/proc.c:548-592 | sleep on another channel goes on where it was after a wakeup there or a kill |
| ProcessTree.StepKeepsTree | virtual memory & file system/kernel/proc.c:280-615 | every step keeps the invariant behind these, including that havekids is true exactly if a slot below the scan has the caller as parent |
| Settling.NoDeadlock | virtual memory & file system/kernel/proc.c:280-615 | in every interleaving, unless every call has returned, is a ZOMBIE or sleeps in wait, a call under way can take a step; and one that neither holds wait_lock nor is about to take it can take its own next step |
| Settling.RunsEnd | virtual memory & file system/kernel/proc.c:280-615 | under every schedule, a run in which no call starts and nobody is killed has a bounded number of steps |
| Settling.AllSettle | virtual memory & file system/kernel/proc.c:280-615 | from every reachable state the calls under way can be brought to an end or to sleep in wait; then wait_lock is free, and exit, wait, fork and kill can start for whoever may call them |
| Settling.StepDown | virtual memory & file system/kernel/proc.c:280-615 | every step of a call under way leaves less work, a wakeup that sets off another scan included |
| RunQueue.Queue.Push | scheduler/kernel/my_proc.c:45-50 | the ring holds one entry more, at its end |
| RunQueue.Queue.Pop | scheduler/kernel/my_proc.c:58-64 | the ring gives its first entry |
| RunQueue.Queue.IsEmpty | scheduler/kernel/my_proc.c:65-73 | equal indices mean an empty queue |
| RunQueue.Queue.Append | scheduler/kernel/my_proc.c:94-98 | one entry more at the end of the list |
| RunQueue.Queue.FindMax | scheduler/kernel/my_proc.c:78-89 | the earliest entry of the highest priority |
| RunQueue.Queue.L2Pop | scheduler/kernel/my_proc.c:75-93 | a stable priority queue: the earliest entry of the current highest priority, the others in order; with only negative priorities nothing is returned and the last entry is dropped |
| RunQueue.ForemostIsOne | scheduler/kernel/my_proc.c:75-93 | what L2_pop must return is unique |
| Scheduler.Sched.constructor | scheduler/kernel/my_proc.c:33-43 | at boot the invariant holds |
| Scheduler.Sched.Push | scheduler/kernel/my_proc.c:109-118 | one entry more in the queue of the mode and level |
| Scheduler.Sched.MyQueueing | scheduler/kernel/my_proc.c:120-138 | the process goes to the end of the queue of its new level, and conservation holds again |
| Scheduler.Sched.AddProcToQueue | scheduler/kernel/my_proc.c:144-157 | in MLFQ mode the process has level 0, priority 3 and quantum 1 and is last on level 0; in FCFS mode it is last in the queue and nothing else changes |
| Scheduler.Sched.Start | scheduler/kernel/proc.c:324-327 | a new process is RUNNABLE: in MLFQ mode with level 0, priority 3 and quantum 1 and last on level 0, in FCFS mode last in the queue with nothing but its state changed |
| Scheduler.Sched.WakeOne | scheduler/kernel/proc.c:583-623 | the same for a woken or killed sleeper, whatever its level, priority and quantum were |
| Scheduler.Sched.PopRunnable | scheduler/kernel/my_proc.c:189-199 | the loop drops entries that are not RUNNABLE and returns the first that is |
| Scheduler.Sched.SelectFcfs | scheduler/kernel/my_proc.c:189-199 | the head of the queue; nothing exactly when it is empty |
| Scheduler.Sched.SelectMlfq | scheduler/kernel/my_proc.c:174-188 | the head of the first level that is not empty, on level 2 the foremost of the highest priority |
| Scheduler.Sched.Dispatch | scheduler/kernel/my_proc.c:201-220 | if anything is RUNNABLE, the process chosen becomes RUNNING; otherwise nothing is RUNNABLE |
| Scheduler.Sched.Yield | scheduler/kernel/my_proc.c:159-172 | without a boost due the process is queued again, demoted if its quantum is used up, and nobody else changes; with one every process has level 0, priority 3 and quantum 1, level 0 holds exactly the RUNNABLE ones in table order, the yielder included, and the other levels are empty |
| Scheduler.Sched.Block | scheduler/kernel/my_proc.c:159-172 | a process that sleeps or exits is queued nowhere; without a boost due nothing else changes, with one it is as for yield |
| Scheduler.Sched.PriorityBoosting | scheduler/kernel/my_proc.c:337-357 | all at level 0 in table order; without effect on what runs in FCFS mode |
| Scheduler.Sched.BoostIfDue | scheduler/kernel/my_proc.c:168-171 | the boost asked for, once |
| Scheduler.Sched.Tick | scheduler/kernel/trap.c:170-185 | ticks counts up in 32 bits; a boost is asked for every 50 ticks in MLFQ mode; the kernel panics if and only if some process sleeps on the ticks |
| Scheduler.Sched.FiftyTicksThenYield | scheduler/kernel/trap.c:170-185 | any 50 ticks in MLFQ mode, also where ticks wraps, and then a yield put every process back to level 0, priority 3 and quantum 1, and the RUNNABLE ones on level 0 in table order |
| Scheduler.RunnableInOrder | scheduler/kernel/my_proc.c:344-355 | the queue that a boost or a change to FCFS builds: exactly the RUNNABLE processes, in table order |
| Scheduler.SleepThenTick | scheduler/kernel/trap.c:170-185 | from boot: a process runs, goes to sleep on the ticks, and the next tick panics |
| Scheduler.Sched.SetIdle | scheduler/kernel/proc.c:109-175 | a slot is taken or given up without touching the queues |
| Scheduler.Sched.FcfsMode | scheduler/kernel/my_proc.c:264-293 | exactly the RUNNABLE processes, in table order; level, priority and quantum are -1 and ticks is 0; -1 if already in the mode |
| Scheduler.Sched.MlfqMode | scheduler/kernel/my_proc.c:295-336 | the first-come queue becomes level 0 in its order, everyone has level 0, priority 3 and quantum 1, and ticks is 0; -1 if already in the mode |
| Scheduler.Sched.SetPriority | scheduler/kernel/my_proc.c:236-262 | -2 outside 0 to 3, -1 exactly when no process has the pid, otherwise the caller or else the first process that has it; then that process's lock is still held, unless it is the caller |
| Scheduler.Sched.RefillLevel0 | scheduler/kernel/my_proc.c:322-324 | what the first-come queue holds is appended to level 0 in order |
| Scheduler.NeverFull | scheduler/kernel/my_proc.c:45-64 | there are never more entries than processes, so no ring overflows |
| Scheduler.PushKeeps | scheduler/kernel/my_proc.c:109-138 | pushing the process on its way makes the queues hold every RUNNABLE process once |
| Scheduler.PickKeeps | scheduler/kernel/my_proc.c:159-188 | what is picked was RUNNABLE and in the queues once |
| Scheduler.Demotion | scheduler/kernel/my_proc.c:120-138 | the closed form of level, priority and quantum after k turns since admission or boost |
| Scheduler.TurnComes | scheduler/kernel/my_proc.c:174-188 | after n dispatches a process at position i of level 0 is at position i - n, whatever arrives |
| Scheduler.ExactlyAfter | scheduler/kernel/my_proc.c:174-188 | it is dispatched after exactly i other dispatches |
| Threads.TableExact | thread/kernel/paull04_thread.c:81-86 | the shared table maps exactly the heap, TRAMPOLINE, TRAPFRAME and one page per unreaped thread |
| Threads.ThreadsApart | thread/kernel/paull04_thread.c:81-86 | threads of a group have different pages, none of them in the heap |
| Threads.GroupsAgree | thread/kernel/proc.c:268-294 | members of one group, and only they, share a table and a main pid, and they agree on the size |
| Threads.FrameAddrIs | thread/kernel/paull04_thread.c:81 | the address of a trap frame is the page meant if and only if the count is below 2^19; at 2^19 the product overflows and the address is beyond MAXVA |
| Threads.CloneOverflows | thread/kernel/paull04_thread.c:81-86 | a consistent state, without a thread and with one page of heap, in which the next clone does that |
| Threads.CloneNeverRemaps | thread/kernel/paull04_thread.c:81-86 | below that count the page of the next thread is never mapped already |
| Threads.TablesNeeded | thread/kernel/paull04_thread.c:82-85 | clone has to allocate a page-table page exactly when the group has had 510 threads, or 512 more, and so on, however many are gone; and a second one at 2^18 - 2 |
| Threads.HeapTablesApart | thread/kernel/vm.c:189-217 | none of those pages is one that the heap already has |
| Threads.NoGroupsOk | thread/kernel/proc.c:47-60 | a process table without processes satisfies the invariant |
| Threads.ThreadTable.constructor | thread/kernel/proc.c:47-60 | the same for the class |
| Threads.ThreadTable.FindUnused | thread/kernel/paull04_thread.c:22-30 | the first unused slot, or none |
| Threads.ThreadTable.Clone | thread/kernel/paull04_thread.c:18-105 | for every free list: -1 and nothing without a slot, -1 and a stale pid without a page for the trap frame, a panic if and only if the address overflows or pages for tables are missing, and otherwise the first unused slot is a live thread of the caller's group with its table, its size, the pid returned and the stack given, its trap frame is mapped at a page that was not mapped, and nothing else changes but the count |
| Threads.ThreadTable.CloneExitJoin | thread/kernel/paull04_thread.c:53-180 | clone, exit of the thread and join: join returns the pid that clone returned and the stack that clone was given, and the table of the group and all slots are as before, but for the count |
| Threads.ThreadTable.StartThread | thread/kernel/paull04_thread.c:53-105 | the new member, with the stack it was given and its trap frame at the address the source computes |
| Threads.ThreadTable.Freethread | thread/kernel/paull04_thread.c:106-127 | the thread's page, which is mapped to its trap frame, goes, and its slot; the trap frame is what is freed |
| Threads.ThreadTable.CleanAllThreads | thread/kernel/paull04_thread.c:128-140 | every thread of the group goes, whatever its state, and nobody else changes; exactly the pages of their trap frames are unmapped |
| Threads.ThreadTable.Join | thread/kernel/paull04_thread.c:142-180 | the first exited thread of the group is freed and its stack address returned; -1 exactly if none has exited and there is none or the caller was killed; a panic exactly if one has exited and the address cannot be stored |
| Threads.ThreadTable.Growproc | thread/kernel/proc.c:268-294 | growing and shrinking by any int: every member has the new size, the heap is exactly as long, and nothing else changes; a size below 0 changes nothing; without memory nothing changes, and the call returns -1 with wait_lock held |
| Threads.ThreadTable.Resize | thread/kernel/proc.c:268-294 | the loop over the members, and the heap pages of the table |
| Threads.ThreadTable.Exit | thread/kernel/proc.c:372-411 | a main thread takes its threads along, with exactly the pages of their trap frames; a thread keeps its page until it is joined |
| Threads.ThreadTable.Fork | thread/kernel/proc.c:298-350 | a group of one in the first unused slot, with the pid returned and a table of its own that maps a heap of the caller's size, TRAMPOLINE and TRAPFRAME and nothing else; without memory the slot is cleared and a pid used up |
| Threads.ThreadTable.Userinit | thread/kernel/proc.c:241-266 | the first process, in the same way with one page |
| Threads.ThreadTable.Freeproc | thread/kernel/proc.c:155-222 | everything unmapped was mapped and nothing is left for freewalk to panic on; the slot is cleared, exactly the mappings of that table go, and nothing else changes |
| Threads.ReapKeeps | thread/kernel/proc.c:216-222 | what proc_freepagetable unmaps is exactly what the table of a group without threads maps |
| Threads.DeadMain | thread/kernel/proc.c:372-411 | a main thread that has exited has no threads |
| Threads.PageUpIs | thread/kernel/proc.c:276-284 | the pages of a heap are as many as hold its bytes, and no more |
| Grep.Match | virtual memory & file system/user/grep.c:72-82 | match holds exactly when some substring, or beginning under ^, is denoted by the pattern |
| Grep.MatchHere | virtual memory & file system/user/grep.c:85-96 | matchhere holds exactly when some beginning of the text is denoted by the pattern, the whole text under a final $ |
| Grep.MatchStar | virtual memory & file system/user/grep.c:99-106 | matchstar holds exactly when the rest matches behind some run of fitting characters |
| Grep.HereMany | virtual memory & file system/user/grep.c:89-90 | the meaning of c* in front of a pattern |
| Grep.HereOne | virtual memory & file system/user/grep.c:93-94 | the meaning of one character in front of a pattern |
| Grep.HereEnd | virtual memory & file system/user/grep.c:91-92 | the meaning of a final $ |
| Grep.Grep | virtual memory & file system/user/grep.c:11-35 | for every way to cut the input into reads, the output is the matching newline-terminated lines up to the first line that does not fit the buffer |
| Grep.PrintLines | virtual memory & file system/user/grep.c:21-29 | the complete lines in the buffer are handled in order and the rest is kept |
| Grep.PrintOne | virtual memory & file system/user/grep.c:23-27 | one line is written with its newline exactly if it matches |
| Grep.FindNewline | virtual memory & file system/user/grep.c:22 | the first newline before the NUL |
| Grep.PrintsAll | virtual memory & file system/user/grep.c:18-34 | all matching lines are printed exactly when none lies at or behind a line that does not fit |
| Grep.LongLineLost | virtual memory & file system/user/grep.c:18-34 | a line of 1023 characters that matches is not printed |
| Grep.FittingInput | virtual memory & file system/user/grep.c:18-34 | in particular when every line fits |

## Left out

- Device drivers, traps, the console, assembly, TLB flushes, fences and interrupt state: no state of their own that the models need; a disk transfer is one atomic block read or write.
- exec, pipes, directories, path names, symbolic links and inode reference counts: they would only add easier members beside the block tree.
- Lock order and lock release in general: locks are named only where the source gets one wrong.
- Scheduling on more than one processor: `Scheduler.dfy` and `Threads.dfy` take each operation as one step.
- The second and third copies of bio.c, log.c, kalloc.c, umalloc.c and grep.c: the same code.
- The permission to store under copy-on-write as an equality with eager copying: not true of the source, see `CowMemory.ExtraStores`.
- uvmfirst, uvmclear, copyinstr and the kernel page table: would only add easier members beside those modelled.
- VirtualMemory.Vm.Store: an address at or above MAXVA is not modelled, because `walk` panics on it.
- VirtualMemory.Vm.UvmcopyEager: the eager kernel has no reference counts; here each copied page is counted once, as the shared invariants require.
- FileSystem.Fs.Bmap: the buffer that the source does not release when the disk is full inside a doubly indirect range is not counted; buffers are the subject of `BufferCache.dfy`.
- CrashFiles.WriteOp: one operation per transaction; group commit of several open operations is the subject of `LogSpace.dfy`. The type, device and link count of an inode are constants of the image.
- Umalloc.Heap.Malloc: from a state in which a block of 2^27 units or more was handed out nothing further is promised; 64-bit addresses do not wrap.
- Umalloc.Heap.Sbrk: whether memory is granted is a parameter; that shrinking takes pages with live blocks along is not stated, because the allocator never asks for it on purpose.
- Grep.Grep: the input holds no NUL character, because `strchr` and `match` would stop at it.
- Wakeup.NoLostWakeup: pids and exit codes are not modelled, a slot stands for its process; RUNNABLE and RUNNING are one state, and a critical section under one process lock is one step.
- Threads.ThreadTable.Clone: the copying of registers, files and names is not modelled; the overflow, which the C standard leaves undefined, is taken to wrap to 32 bits.
- Threads.ThreadTable.Growproc: whether memory is granted is a parameter, and a heap that is granted fits in the memory of the machine.
- Threads.ThreadTable.Fork: whether memory is granted is a parameter; the copying of registers, files and names is not modelled.
- VirtualMemory.Vm.ProcPagetable: the error path after the second mapping is not modelled, because it cannot be reached.
- Scheduler.Sched.SetPriority: the pids are a parameter, because nothing else in the scheduler depends on them.
