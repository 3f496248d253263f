# Models of the xv6-riscv kernel and two of its user programs

A Dafny model of the core of xv6-riscv (`pgtbl/system_backup`), with proofs of
what its parts are for. `dafny verify dfyconfig.toml` checks everything.

The files follow the program:

- **Buffer cache and write-ahead log** (`Blocks`, `LruList`, `BufferCache`,
  `CrashSpec`, `WriteAheadLog`, `LogRuns`). The disk is a sequence of blocks,
  written one block at a time; the trace of platters is every point at which a crash can
  happen. The cache refines a flat logical disk, and a commit is atomic under
  crashes at any block write, including crashes during recovery.
- **File system** (`Bitmap`, `FsState`, `FsRecord`, `FileBytes`, `FileSystem`,
  `MkfsState`, `FsExamples`, `FsDisk`). Block ownership, inodes as byte sequences,
  the bound on blocks per transaction and a chunk that meets it, and what a boot
  finds after crashes in a commit: a consistent file system with the old file or
  the written one.
- **Directories** (`Directory`, `PathWalk`, `PathMeaning`, `DirGraph`, `DirTree`,
  `DirTreeProof`, `DirAnswers`, `DanglingDirs`, `LinkCounts`, `LinkOverflow`, `FileTree`). Directories as finite maps, paths as folds of
  lookups, and the directory tree under create, link, unlink and iput by any
  processes.
- **Virtual memory** (`PageTable`, `AddressSpace`, `TableTree`, `VirtualMemory`,
  `AddressGrowth`, `ProcMemory`, `UserCopy`, `ImageBytes`, `ImageArgs`,
  `ExecMemory`, `SystemMemory`, `ProcSystem`). The three-level Sv39 tree (section 4.4 of the
  RISC-V Privileged Architecture, version 20211203) as a partial map, and all
  processes together: fork, exec, sbrk and freeproc in any order keep every page
  with exactly one owner and every other process's memory byte for byte.
- **Processes** (`SpinLock`, `ProcState`, `ProcMoves`, `ProcEdits`, `ProcSwitch`,
  `ProcSteps`, `ProcProof`, `ProcTheorems`, `KillZero`, `IrqState`, `IrqProof`,
  `SleepLock`, `SleepProof`, `ProcCalls`).
  fork, exit, wait, sleep, wakeup, kill, yield and the scheduler as interleaved
  steps of any number of CPUs, with every lock operation a step and `p->lock` carried across `swtch`; on top of it each
  CPU's interrupt nesting, with a thread's interrupt state carried across CPUs, and
  a sleeplock with its spinlock.
- **Rings and allocators** (`VirtQueue`, `VirtSteps`, `VirtioDisk`, `Pipe`,
  `HeapBlocks`, `HeapOps`, `UserMalloc`).
- **Language code** (`Regex`, `GrepLines`, `ShellParser`, `ShellGrammar`,
  `ShellWords`, `ShellRoundTrip`). The regular-expression matcher against the language
  of its patterns, the shell's parser against a grammar.

`Wrappers` and `Sets` hold what several of them share.

Code that updates state is a class whose methods are proved against functions and
predicates on values; the lemmas are about those. A `panic` is an outcome (a
boolean, `None` or `Panic`), so that its condition can be stated. Clocks, devices,
what `sbrk`, `read` and user memory return are parameters.

Where the code does less than one might expect, the model follows the code:

- The log's size panic: begin_op reserves within LOGSIZE, but log_write also tests
  against `log.size - 1`, and mkfs makes the log LOGSIZE blocks long. An operation
  within its quota can panic if and only if the log has no more than LOGSIZE blocks
  (`ReservationIff`). A call that would only be absorbed still can in a larger one,
  in a full transaction (`FullTransaction`).
- writei: a copy that fails in the middle leaves bytes in the cached block that are
  neither logged nor counted (`FailingWrite`); when exactly a write is exact is
  `WriteExact`.
- brelse of such a block leaves the cache with content that no log knows
  (`BrelseInv`); on disk a crash still finds a consistent file system
  (`ChunkSurvives`).
- A directory that is removed while it is a current directory keeps its .., and when
  the parent is removed too that name leads to a free inode: a path through it makes
  the kernel panic (`RemovedParent`; `DanglesIff` says exactly when this happens).
  A file made in such a directory keeps its link when the directory is freed and is
  lost (`LeakedFile`; `ExactIff` says exactly when). nlink is a short, and link does
  not test it: link number 32768 makes it negative, and the next unlink panics
  (`TooManyLinks`).
- pipewrite: the exit for a killed writer wakes nobody, so a reader can sleep on a
  pipe with data (`ForgottenReader`; exactly when is in `Pipe.PipeBuf.WriteTurn`).
  piperead: a byte that copyout cannot store is gone (`Pipe.PipeBuf.ReadTurn`).
- malloc: for requests above 2^31 - 32 bytes the int argument of sbrk is not the
  size of the block (`MorecoreAsks`, both directions; `HugeRequest`).
- grep stops silently at the first line that does not fit its buffer or has a NUL, and
  ignores a last line without newline (`GrepLines.Grep`).
- copyout looks at PTE_V and PTE_U only, so it writes to read-only user pages
  (`WriteReadOnly`; `ReadOnlyKeptIff` says when it does no harm).
- kill(0) matches the first unused slot, whose pid is 0, and allocproc does not clear
  `killed`, so the next process in that slot is born killed (`BornKilled`;
  `BornKilledIff` says exactly when).

## Model

| member | source | states |
|---|---|---|
| LruList.Lru.MoveToFront | pgtbl/system_backup/kernel/bio.c:126-134 | brelse's relinking of the doubly linked LRU list: the buffer becomes the most recently used one, the order of the others is unchanged, both link directions agree |
| LruList.Lru.InsertFront | pgtbl/system_backup/kernel/bio.c:46-52 | binit's insertion behind the sentinel puts the buffer in front of the list |
| BufferCache.RecycleInv | pgtbl/system_backup/kernel/bio.c:76-87 | recycling an unused buffer for another block changes no block's logical content, because logged blocks stay pinned; each block still has at most one buffer |
| BufferCache.FillInv | pgtbl/system_backup/kernel/bio.c:97-101 | filling an invalid buffer from disk gives it the latest logical content of its block |
| BufferCache.PinInv | pgtbl/system_backup/kernel/bio.c:139-144 | pinning a changed buffer makes its bytes the logical content of the block and keeps it from being recycled |
| BufferCache.AbsorbInv | pgtbl/system_backup/kernel/log.c:224-231 | a second log_write of a block already in the transaction makes the new bytes its logical content without pinning again |
| BufferCache.BunpinInv | pgtbl/system_backup/kernel/bio.c:146-151 | unpinning an installed block keeps the cache coherent with the logical disk |
| BufferCache.BrelseInv | pgtbl/system_backup/kernel/bio.c:116-137 | releasing a buffer keeps the cache coherent if and only if it carries its block's logical content, that is, its changes were logged or written |
| BufferCache.BwriteInv | pgtbl/system_backup/kernel/bio.c:106-112 | bwrite puts the buffer's bytes on the platter and into the write trace and keeps the cache coherent |
| BufferCache.Cache.Bget | pgtbl/system_backup/kernel/bio.c:58-89 | the buffer of the block if there is one, otherwise the least recently used unused one; None is the no buffers panic; no logical content changes |
| BufferCache.Cache.Bread | pgtbl/system_backup/kernel/bio.c:91-103 | the locked buffer holds the latest logical content of the block |
| BufferCache.Cache.Bwrite | pgtbl/system_backup/kernel/bio.c:105-112 | writes one block of the platter |
| BufferCache.Cache.Brelse | pgtbl/system_backup/kernel/bio.c:114-137 | drops one reference and, with the last one, moves the buffer to the front of the list; the cache is valid afterwards exactly when the buffer's changes were logged or written |
| CrashSpec.HdrRoundTrip | pgtbl/system_backup/kernel/log.c:86-114 | write_head then read_head returns the same block numbers, through the little-endian words of the header block |
| CrashSpec.RecoveryStepMeaning | pgtbl/system_backup/kernel/log.c:116-123 | every platter in the middle of recovery recovers to the same home blocks as the one recovery started from |
| CrashSpec.CrashesInRecoveryAreHarmless | pgtbl/system_backup/kernel/log.c:68-123 | any number of crashes inside recovery, each at any block write, and a last complete recovery give the home blocks of one complete recovery |
| CrashSpec.CommitIsAtomic | pgtbl/system_backup/kernel/log.c:178-203 | a crash after any number of commit's block writes recovers to the old home blocks if it precedes the first write_head, and to the whole transaction otherwise |
| CrashSpec.CommitFinalPlatter | pgtbl/system_backup/kernel/log.c:193-203 | after the last write of commit the home blocks are the transaction's and the log is empty |
| CrashSpec.CommitThenCrashes | pgtbl/system_backup/kernel/log.c:68-203 | crash atomicity with any number of further crashes during recovery |
| WriteAheadLog.BeginOpInv | pgtbl/system_backup/kernel/log.c:126-142 | begin_op's guard is enough for the reservation: logged blocks plus all unspent quotas stay within LOGSIZE |
| WriteAheadLog.LogWriteInv | pgtbl/system_backup/kernel/log.c:214-235 | log_write, absorbed or not, keeps reservation, pin counts, cache coherence and the history of the platter |
| WriteAheadLog.EndOpInv | pgtbl/system_backup/kernel/log.c:146-175 | while an operation is in progress committing is off, so end_op's log.committing panic is unreachable; the bookkeeping keeps the invariant |
| WriteAheadLog.ReservationSuffices | pgtbl/system_backup/kernel/log.c:214-221 | with log.size > LOGSIZE the size panic is met exactly when the transaction is full, and then no operation has quota left |
| LogRuns.RunKeeps | pgtbl/system_backup/kernel/log.c:126-235 | every run of begin_op, bread, changes, log_write, brelse, end_op and commits by any operations keeps the invariant of cache and log, and every platter written in it means a snapshot, never an older one than the platter before |
| LogRuns.ReservationIff | pgtbl/system_backup/kernel/log.c:126-221 | from a fresh log some run, with any number of commits, leads an operation with reserved blocks left into the transaction-too-big panic if and only if log.size <= LOGSIZE; mkfs makes it exactly LOGSIZE |
| LogRuns.FullTransaction | pgtbl/system_backup/kernel/log.c:214-231 | in a larger log some run fills the transaction, and then every log_write panics, even one that would be absorbed, because the size is tested before the search |
| WriteAheadLog.UncommittedHistory | pgtbl/system_backup/kernel/log.c:178-203 | the platters written before the header write mean the snapshot before the transaction |
| WriteAheadLog.CommittedHistory | pgtbl/system_backup/kernel/log.c:193-203 | every platter of a complete commit means the old or the new snapshot, in this order |
| WriteAheadLog.RecoveryHistory | pgtbl/system_backup/kernel/log.c:116-123 | every platter written by recovery at boot means one and the same snapshot |
| WriteAheadLog.CommitReady | pgtbl/system_backup/kernel/log.c:193-203 | what commit finds: an empty log on disk, and applying the pending blocks to the platter gives the logical disk |
| WriteAheadLog.CommitDone | pgtbl/system_backup/kernel/log.c:193-203 | a complete commit re-establishes the invariant with the new logical disk as last snapshot |
| WriteAheadLog.CommitInv | pgtbl/system_backup/kernel/log.c:160-203 | the commit that end_op makes, as a transition of cache, log and platters, keeps the invariant and extends the history |
| WriteAheadLog.Log.TryBeginOp | pgtbl/system_backup/kernel/log.c:126-142 | one test of begin_op's loop: waits while committing or without room, otherwise reserves MAXOPBLOCKS |
| WriteAheadLog.Log.LogWrite | pgtbl/system_backup/kernel/log.c:214-235 | the block is in the transaction once, its buffer pinned once; false exactly at the size panic, which log.size > LOGSIZE rules out |
| WriteAheadLog.Log.WriteLog | pgtbl/system_backup/kernel/log.c:178-191 | copies exactly the logged content into the log blocks, one platter per write; buffers that readers hold are untouched |
| WriteAheadLog.Log.InstallTrans | pgtbl/system_backup/kernel/log.c:68-83 | copies the log blocks to their homes and unpins them (not when recovering); buffers that readers hold are untouched |
| WriteAheadLog.Log.WriteHead | pgtbl/system_backup/kernel/log.c:100-114 | the header block on disk lists the transaction; buffers that readers hold are untouched |
| WriteAheadLog.Log.ReadHead | pgtbl/system_backup/kernel/log.c:85-97 | the in-memory header lists what the header block lists |
| WriteAheadLog.Log.Commit | pgtbl/system_backup/kernel/log.c:193-203 | with readers holding any buffers but those of the log and of logged blocks: every platter it leaves, complete or stopped inside, means the snapshot before or, from the commit point on, the logical disk at the call; afterwards nothing is pending, the home blocks are the logical disk and the readers' buffers are as they were |
| WriteAheadLog.Log.RecoverFromLog | pgtbl/system_backup/kernel/log.c:116-123 | the platter after boot is the recovered one, and every platter written on the way means the recovered snapshot |
| WriteAheadLog.Log.EndOp | pgtbl/system_backup/kernel/log.c:146-175 | the last operation commits, earlier ones do not; the whole log invariant is kept, the commit is the transition CommitInv is about, and buffers that readers hold are untouched |
| Bitmap.MarkMeaning | pgtbl/system_backup/kernel/fs.c:75-79 | setting a block's bit sets this bit and no other one of the whole bitmap |
| Bitmap.UnmarkMeaning | pgtbl/system_backup/kernel/fs.c:97-104 | clearing a block's bit clears this bit and no other one |
| FsState.AttachInv | pgtbl/system_backup/kernel/fs.c:382-421 | a free block that is marked and stored into an empty slot of an inode keeps the ownership invariant: every reached block is marked, reached from one place only, and the set bits are metadata plus owned blocks |
| FsState.AttachBytes | pgtbl/system_backup/kernel/fs.c:382-421 | attaching a block changes no byte of any file that was mapped |
| FsState.StoreInv | pgtbl/system_backup/kernel/fs.c:518-530 | storing data into a block reached from an inode keeps the ownership invariant |
| FsState.StoreBytes | pgtbl/system_backup/kernel/fs.c:518-530 | storing a data block changes exactly this block's bytes of this file |
| FsState.TruncatedInv | pgtbl/system_backup/kernel/fs.c:425-453 | clearing the bits of exactly the blocks an inode owns and emptying it keeps the invariant |
| FsState.NotYetFreed | pgtbl/system_backup/kernel/fs.c:425-453 | a slot that itrunc has not reached yet is still marked, so the freeing free block panic is unreachable |
| FsState.TruncatedFrame | pgtbl/system_backup/kernel/fs.c:425-453 | truncation changes no other file's bytes and no other bit |
| FileSystem.FileSys.Balloc | pgtbl/system_backup/kernel/fs.c:64-88 | a block that was free, now marked and zeroed, or 0 exactly when no block is free |
| FileSystem.FileSys.Bfree | pgtbl/system_backup/kernel/fs.c:90-105 | clears the bit; false is the panic, exactly for a block that is not marked |
| FileSystem.FileSys.Bmap | pgtbl/system_backup/kernel/fs.c:382-421 | the block of the file's block number, direct or through the indirect block, allocated if needed; the invariant and every file's bytes are kept; 0 only when the disk is full |
| FileSystem.FileSys.Itrunc | pgtbl/system_backup/kernel/fs.c:424-453 | frees exactly the inode's own blocks, never panics, and leaves every other inode alone |
| MkfsState.EmptyFsInv | pgtbl/system_backup/mkfs/mkfs.c:93-115 | the file system before mkfs adds files, metadata blocks marked and every inode empty, satisfies the ownership invariant, for every layout |
| FsRecord.AttachTracked | pgtbl/system_backup/kernel/fs.c:382-421 | a new block appears only in the slot it was allocated for, and every block changed on the way was passed to log_write |
| FileBytes.AccountBound | pgtbl/system_backup/kernel/file.c:155-174 | a filewrite chunk dirties at most MAXOPBLOCKS = 10 distinct blocks, because the first block of a non-aligned write is already mapped |
| FsExamples.TightChunk | pgtbl/system_backup/kernel/file.c:155-174 | the bound is met: a run on a valid file system whose four free blocks are in four bitmap blocks writes 3 blocks at a non-aligned offset and logs exactly 10 blocks, named in the contract |
| FileBytes.WriteExact | pgtbl/system_backup/kernel/fs.c:505-539 | the file is the old one with exactly the reported bytes replaced if and only if the source was readable as far as needed, or its readable bytes beyond the last block boundary that fall inside the file are what the file has there; a full disk never makes it fail |
| FsExamples.FailingWrite | pgtbl/system_backup/kernel/fs.c:520-524 | a run of writei on a valid file system that returns 0 and has changed byte 0 of the file |
| FileBytes.ReportedBytes | pgtbl/system_backup/kernel/fs.c:505-539 | however writei ended, the bytes it reports are in the file |
| FileBytes.OverwrittenTwice | pgtbl/system_backup/kernel/fs.c:505-539 | two consecutive writes are one write of the concatenation |
| FileBytes.ChunkExtends | pgtbl/system_backup/kernel/file.c:155-174 | one more chunk of filewrite extends the written prefix |
| FileSystem.FileSys.Writei | pgtbl/system_backup/kernel/fs.c:498-539 | -1 without effect exactly for a bad range; otherwise r bytes at off are the source's, the size grows only when needed, no other inode changes, the blocks of the r bytes were passed to log_write, and a short count means a failed copy or a full disk |
| FileSystem.FileSys.Readi | pgtbl/system_backup/kernel/fs.c:467-496 | returns exactly the bytes of the file from off, cut at its end, across block and direct/indirect boundaries |
| FileSystem.FileSys.WriteThenRead | pgtbl/system_backup/kernel/fs.c:467-539 | a readi of the bytes a writei reported returns them, whatever the offset and however the writei ended |
| FileSystem.FileSys.WriteTransaction | pgtbl/system_backup/kernel/file.c:159-166 | one transaction of filewrite logs at most MAXOPBLOCKS distinct blocks |
| FileSystem.FileSys.Filewrite | pgtbl/system_backup/kernel/file.c:134-181 | the chunk loop writes the source as one byte sequence, one transaction per chunk |
| FsDisk.InodeRoundTrip | pgtbl/system_backup/kernel/fs.c:225-241 | storing an inode in its block and reading any inode of the block: the stored one is returned, the others are as before |
| FsDisk.LoadedInv | pgtbl/system_backup/kernel/fs.c:303-316 | a disk that holds the inodes, bitmap and indirect blocks of a consistent file system boots into a consistent one, even if some data blocks are out of date |
| FsDisk.WriteChunk | pgtbl/system_backup/kernel/file.c:155-174 | one chunk of filewrite gives what the crash theorem needs, whatever earlier failed copies left in the cache |
| FsDisk.ChunkSurvives | pgtbl/system_backup/kernel/log.c:68-203 | a filewrite chunk commits, the power fails after any block write, any number of boots are cut short in recovery: the boot that completes finds a file system satisfying the ownership invariant, with all files as the disk had them, or, from the commit point on, with the reported bytes in the file, every other byte of it as in memory or, in a block left behind by a failed copy, as on disk before, and all other files as the disk had them |
| FsDisk.UpToDateFile | pgtbl/system_backup/kernel/fs.c:518-530 | if the disk had all of the file before, it has it after the commit as it is in memory or, when the copy failed in a block that was left behind, the old file with exactly the reported bytes replaced |
| FsDisk.RunSurvives | pgtbl/system_backup/kernel/file.c:155-174 | the same after any number of committed chunks to any files, each from whatever the one before left in the cache and on disk |
| PageTable.PxDigits | pgtbl/system_backup/kernel/vm.c:77-83 | the three table indices of an address are the base-512 digits of its page number |
| PageTable.AddLowOk | pgtbl/system_backup/kernel/vm.c:94-100 | a new lowest-level table keeps the tree well formed |
| PageTable.SetLeafOk | pgtbl/system_backup/kernel/vm.c:158-158 | storing a leaf entry changes the translation of its own page and of no other |
| PageTable.AllocParted | pgtbl/system_backup/kernel/kalloc.c:65-82 | kalloc moves one page from the free list to its user; the partition of all pages is kept |
| PageTable.DropParted | pgtbl/system_backup/kernel/kalloc.c:42-63 | kfree moves one page back; no page is ever on the free list twice |
| VirtualMemory.Vm.Kfreemem | pgtbl/system_backup/kernel/kalloc.c:84-98 | PGSIZE times the size of the free set |
| VirtualMemory.Vm.Walk | pgtbl/system_backup/kernel/vm.c:73-103 | the leaf slot of the address; only zeroed tables are added, no translation changes; null only without a table and without memory; the panic exactly for va >= MAXVA |
| VirtualMemory.Vm.Walkaddr | pgtbl/system_backup/kernel/vm.c:105-126 | the physical page of a valid user page, 0 otherwise |
| VirtualMemory.Vm.Mappages | pgtbl/system_backup/kernel/vm.c:138-165 | maps exactly its range, page for page, and changes no other translation, also when it fails half way |
| VirtualMemory.Vm.Uvmunmap | pgtbl/system_backup/kernel/vm.c:167-192 | for a range whose mapped pages have data frames of their own: unmaps exactly its range and frees exactly its frames; succeeds if and only if the range is aligned and every page is a mapped leaf, so it panics at a hole |
| VirtualMemory.Vm.Uvmcopy | pgtbl/system_backup/kernel/vm.c:299-333 | the child gets equal bytes and flags in frames of its own; a failure frees every frame it took and restores every translation |
| AddressSpace.CopyStepDone | pgtbl/system_backup/kernel/vm.c:313-327 | one more page copied into a fresh frame keeps parent, frames and earlier copies |
| AddressSpace.CopyUndone | pgtbl/system_backup/kernel/vm.c:330-332 | unmapping the pages copied so far gives back exactly the frames taken |
| TableTree.RootHolds | pgtbl/system_backup/kernel/vm.c:269-287 | the three-level tree in memory is the nested tree freewalk recurses over, and freewalk's no-leaf condition is that no translation is left |
| VirtualMemory.Vm.Freewalk | pgtbl/system_backup/kernel/vm.c:269-287 | every table page of the tree is freed exactly once and nothing else changes; the leaf panic exactly when a valid leaf is left |
| ProcMemory.Uvmfree | pgtbl/system_backup/kernel/vm.c:289-297 | for a tree whose mapped pages have data frames of their own, holes or not: user frames and table pages go back to the free list; panics exactly at a hole below sz or a mapping above it |
| ProcMemory.ProcPagetable | pgtbl/system_backup/kernel/proc.c:175-207 | a tree with trampoline and trapframe and nothing else, or null with the free set, tables and frames as before |
| ProcMemory.ForkMemory | pgtbl/system_backup/kernel/proc.c:278-297 | a failed fork, at whichever allocation, leaves the same free set, tables and frames; a successful one takes exactly the child's table pages, one trapframe and one frame per page, and gives the child a process tree with copies of the parent's pages |
| AddressGrowth.Uvmalloc | pgtbl/system_backup/kernel/vm.c:223-249 | for any new size: new zeroed pages exactly in the range, or 0 with all user memory given back and every translation as before; always 0 for more pages than memory has |
| AddressGrowth.Uvmdealloc | pgtbl/system_backup/kernel/vm.c:251-267 | unmaps and frees exactly the pages between the two sizes; panics exactly at a hole between them |
| ExecMemory.FreeProcess | pgtbl/system_backup/kernel/proc.c:209-217 | proc_freepagetable of any process: its user frames and page tables go back to the free list, each once, and nothing else changes |
| ExecMemory.Uvmclear | pgtbl/system_backup/kernel/vm.c:335-346 | takes the user bit from one page and changes no other translation |
| ExecMemory.Loadseg | pgtbl/system_backup/kernel/exec.c:143-166 | the file's bytes are at the segment's addresses and no frame that was there before changed; -1 exactly when the file is short; its panic is unreachable |
| ExecMemory.ImageReleased | pgtbl/system_backup/kernel/exec.c:133-141 | giving back a half-built image restores the free set, tables and frames that were there before |
| ExecMemory.Exec | pgtbl/system_backup/kernel/exec.c:22-141 | for any segments: a failed exec, at whichever point, leaves the same free set, tables and frames and so the old image; a successful one gives all pages of the old image back, and in the process's memory each byte of the program is that of the last segment that gives one or 0, and at the stack pointer, aligned to 16, there are the addresses of the argument strings in order and a null pointer; the flags of the pages are those of the segments, a guard page without PTE_U and a stack page |
| ImageArgs.ArgvThere | pgtbl/system_backup/kernel/exec.c:90-110 | the 64-bit words at the stack pointer are addresses at which the argument strings, each with its NUL, can be read, string i at word i, and the word behind them is 0: no string overlaps another or the array |
| ImageArgs.SegmentBytes | pgtbl/system_backup/kernel/exec.c:50-68 | a byte of the loaded program is that of the last segment whose file data covers it, and 0 if none does |
| ImageArgs.ProgramThere | pgtbl/system_backup/kernel/exec.c:50-110 | the arguments leave the segments alone, so both hold of the finished image |
| ImageBytes.FlagsByFirst | pgtbl/system_backup/kernel/exec.c:50-69 | a page is there if and only if some segment ends beyond its start, and has the permissions of the first such segment; later segments do not change them |
| ExecMemory.GuardAndStack | pgtbl/system_backup/kernel/exec.c:75-86 | the page below the stack of a new program is no user page, the stack page is |
| ImageBytes.WrittenBytes | pgtbl/system_backup/kernel/vm.c:348-371 | a copy to user addresses replaces those bytes of the process's memory and no others |
| ImageBytes.GrownBytes | pgtbl/system_backup/kernel/vm.c:223-249 | new pages are zeros on top of the process's memory |
| SystemMemory.SteppedSystem | pgtbl/system_backup/kernel/proc.c:111-330 | a process that appears, changes or goes within its own pages leaves every page with exactly one owner (free list, kernel, one process's tables, one user mapping or one trapframe) and every other process's memory byte for byte as it was |
| ProcSystem.ProcTable.Allocproc | pgtbl/system_backup/kernel/proc.c:110-150 | a process with a trapframe and an empty address space, or nothing taken |
| ProcSystem.ProcTable.Fork | pgtbl/system_backup/kernel/proc.c:278-297 | the child's memory is the parent's, or nothing changed; one owner per page and all other processes' memory are kept |
| ProcSystem.ProcTable.Exec | pgtbl/system_backup/kernel/exec.c:22-141 | the process's memory, argv and page permissions are the new program's, byte for byte as in ExecMemory.Exec, or nothing changed; one owner per page and all other processes' memory are kept |
| ProcSystem.ProcTable.Growproc | pgtbl/system_backup/kernel/proc.c:258-275 | the old bytes and zeros behind them, in whole pages, for n more bytes, or the memory cut, or -1 and nothing changed; a size below 0 wraps and changes nothing; one owner per page and all other processes' memory are kept |
| ProcSystem.ProcTable.Freeproc | pgtbl/system_backup/kernel/proc.c:153-173 | every page of the process is free again; one owner per page and all other processes' memory are kept |
| UserCopy.Copyout | pgtbl/system_backup/kernel/vm.c:348-371 | the bytes are at the user addresses, where two addresses are one byte of memory the later one's, and no other byte of memory changed; -1 exactly at the first unreachable address |
| UserCopy.Copyin | pgtbl/system_backup/kernel/vm.c:373-396 | returns the bytes at the user addresses; -1 exactly at the first unreachable address |
| UserCopy.CopyRoundTrip | pgtbl/system_backup/kernel/vm.c:348-396 | copyout then copyin at the same address returns the same bytes if and only if addresses that are one byte of memory were given equal bytes |
| UserCopy.UnaliasedConsistent | pgtbl/system_backup/kernel/vm.c:348-396 | in a process whose pages are in frames of their own that condition always holds |
| UserCopy.ReadOnlyKeptIff | pgtbl/system_backup/kernel/vm.c:356-366 | copyout keeps the bytes of user pages without PTE_W if and only if it was given the bytes they hold |
| UserCopy.WriteReadOnly | pgtbl/system_backup/kernel/vm.c:356-366 | a copyout of one byte to any read-only user address changes it |
| UserCopy.CopyoutOthers | pgtbl/system_backup/kernel/vm.c:348-371 | a process that does not share the written frames sees no change |
| ProcProof.StepInv | pgtbl/system_backup/kernel/proc.c:278-608 | every step of fork, exit, wait, sleep, wakeup, kill, yield and the scheduler, on any CPU, keeps the invariant of the process table |
| ProcProof.RunInv | pgtbl/system_backup/kernel/proc.c:278-608 | the invariant holds in every state of every interleaving from boot |
| ProcMoves.ShiftInv | pgtbl/system_backup/kernel/proc.c:347-439 | a thread may go to any place whose locks are free, given what the place claims about children, parents and sleepers |
| ProcSwitch.DieInv | pgtbl/system_backup/kernel/proc.c:377-381 | becoming a zombie misleads nobody in wait, because the parent was woken and cannot have gone back to sleep while wait_lock is held |
| ProcSwitch.HopInv | pgtbl/system_backup/kernel/proc.c:446-503 | p->lock taken by the scheduler and released by the process, or the other way round, keeps the lock and CPU tables consistent across swtch |
| ProcEdits.GiveToInitInv | pgtbl/system_backup/kernel/proc.c:332-345 | handing a child, zombie or not, to init is safe because the wakeup of init is still to come |
| ProcEdits.ReapInv | pgtbl/system_backup/kernel/proc.c:409-424 | wait frees a zombie only after it has left its CPU, and its status is recorded as delivered |
| ProcTheorems.NoLostExitWakeup | pgtbl/system_backup/kernel/proc.c:334-439 | with wait_lock free, a process asleep in wait has a child and no zombie child |
| ProcTheorems.ParentsInUse | pgtbl/system_backup/kernel/proc.c:334-439 | zombies have no children and every parent pointer names another slot in use |
| ProcTheorems.OrphansGoToInit | pgtbl/system_backup/kernel/proc.c:332-345 | every process that runs or has exited, other than init, has a parent that can wait for it |
| ProcTheorems.OneCpuPerProcess | pgtbl/system_backup/kernel/proc.c:446-503 | no two CPUs run one process; with p->lock free it is RUNNING if and only if a CPU has it as c->proc |
| ProcTheorems.StatusDeliveredOnce | pgtbl/system_backup/kernel/proc.c:392-439 | no exit status is delivered twice, and what is delivered is the status of that exit |
| ProcTheorems.ZombieKeepsStatus | pgtbl/system_backup/kernel/proc.c:377-381 | a zombie keeps its status until its parent takes it |
| ProcTheorems.WaitLockExclusive | pgtbl/system_backup/kernel/spinlock.c:19-72 | two threads never hold wait_lock |
| ProcTheorems.OnlyInitExitPanics | pgtbl/system_backup/kernel/proc.c:478-503 | among steps with p->lock and wait_lock the panics of acquire, release and sched and zombie exit are unreachable; the only panic is init calling exit |
| ProcCalls.WaitReturns | pgtbl/system_backup/kernel/proc.c:430-434 | in every execution wait returns without a child only to a process that has no child or is killed |
| ProcCalls.WaitSleeps | pgtbl/system_backup/kernel/proc.c:430-437 | it goes to sleep only for a process that has a child, has no zombie child and is not killed |
| ProcCalls.WaitTook | pgtbl/system_backup/kernel/proc.c:403-425 | it returns with a child only after it took a zombie child of its own, and unless the copy of the status failed exactly that child's pid and status were handed over and its slot was freed |
| ProcCalls.DeliveredByExit | pgtbl/system_backup/kernel/proc.c:350-425 | every pid and status that wait hands over is of a process that called exit with that status under that pid |
| ProcCalls.ExitSince | pgtbl/system_backup/kernel/proc.c:350-390 | an exiting thread carries the status it called exit with through reparenting and wakeups |
| ProcCalls.WokenOnlyBy | pgtbl/system_backup/kernel/proc.c:571-608 | a sleeping process becomes runnable only by a wakeup on its channel or a kill of its pid |
| ProcCalls.KillAnswers | pgtbl/system_backup/kernel/proc.c:589-608 | kill takes a slot if and only if it has the pid, and then it is killed and not asleep; a slot with another pid keeps its flag |
| ProcCalls.ForkAnswers | pgtbl/system_backup/kernel/proc.c:317-328 | fork makes its child runnable, with the caller as its parent |
| ProcCalls.SchedulersTakeTurns | pgtbl/system_backup/kernel/proc.c:446-477 | in every execution each CPU's scheduler goes from a slot it is done with to the next one, around the table |
| ProcCalls.SchedulerRuns | pgtbl/system_backup/kernel/proc.c:456-472 | the scheduler runs the process of the slot whose lock it takes if and only if it is runnable, and otherwise changes nothing but the lock |
| SpinLock.NestingRestores | pgtbl/system_backup/kernel/spinlock.c:84-110 | after any properly nested push_off and pop_off interrupts are off while any is open and at depth zero as they were at the start |
| SpinLock.Cpu.Push_off | pgtbl/system_backup/kernel/spinlock.c:88-97 | implements the specified nesting step |
| SpinLock.Cpu.Pop_off | pgtbl/system_backup/kernel/spinlock.c:99-110 | implements the specified step; false exactly at the two panics |
| IrqProof.NoffCountsLocks | pgtbl/system_backup/kernel/spinlock.c:84-110 | in every state of every execution, with any further spinlocks taken and interrupts switched at any time, each CPU's noff is the number of spinlocks it holds, and with any of them interrupts are off |
| IrqProof.PanicsExactly | pgtbl/system_backup/kernel/proc.c:485-503 | pop_off never panics; sched's noff panic and sleep's release panic are met exactly by a thread that came with other spinlocks than the call allows; sched is never entered with interrupts on |
| IrqProof.InterruptStateKept | pgtbl/system_backup/kernel/proc.c:485-503 | a thread that is back without spinlocks, after any locks, sleeps and switches and on whatever CPU, has the interrupt state it had, unless it switched it itself |
| SleepProof.NoLostSleepWakeup | pgtbl/system_backup/kernel/sleeplock.c:21-41 | in every interleaving of acquiresleep, releasesleep and holdingsleep with everything else threads do, kill included: while lk->lk is free, a thread asleep on a sleeplock means that the sleeplock is held |
| SleepProof.StepSafe | pgtbl/system_backup/kernel/proc.c:539-585 | the reason, kept by every step: who has decided to sleep is in front of a held lock, or releasesleep's wakeup is still to come to its slot, because sleep takes p->lock before it gives lk back and wakeup takes p->lock |
| SleepProof.LkExclusive | pgtbl/system_backup/kernel/sleeplock.c:21-52 | lk->lk is held exactly by the one thread that is inside the sleeplock's critical code |
| SleepProof.AtMostOneInside | pgtbl/system_backup/kernel/sleeplock.c:21-41 | in runs in which only who has the sleeplock calls releasesleep at most one thread is between acquiresleep and releasesleep, and the sleeplock is held exactly while one is |
| KillZero.BornKilledIff | pgtbl/system_backup/kernel/proc.c:589-608 | an unused slot is marked killed if and only if a kill(0) found it since it was last freed |
| KillZero.BornKilled | pgtbl/system_backup/kernel/proc.c:589-608 | an execution from boot in which kill(0) and a fork leave a new process killed before it has run |
| VirtSteps.SubmitInv | pgtbl/system_backup/kernel/virtio_disk.c:214-276 | a new request keeps the partition of the descriptors, overwrites no unconsumed avail entry and gets a chain of its own |
| VirtSteps.SeenInv | pgtbl/system_backup/kernel/virtio_disk.c:308-324 | a completion names a request in flight, carries status 0 and is handed back once |
| VirtSteps.FreedInv | pgtbl/system_backup/kernel/virtio_disk.c:286-289 | freeing a completed chain returns exactly its three descriptors |
| VirtQueue.AvailRoom | pgtbl/system_backup/kernel/virtio_disk.c:267-273 | while a descriptor is free the avail ring has room, so no unconsumed slot is overwritten |
| VirtQueue.Index16 | pgtbl/system_backup/kernel/virtio_disk.c:267-273 | 16-bit wraparound of the ring indices is harmless |
| VirtioDisk.Disk.Alloc3Desc | pgtbl/system_backup/kernel/virtio_disk.c:199-212 | three different free descriptors, or -1 with nothing taken, exactly when fewer than three are free |
| VirtioDisk.Disk.FreeDesc | pgtbl/system_backup/kernel/virtio_disk.c:168-182 | false exactly at its two panics |
| VirtioDisk.Disk.FreeChain | pgtbl/system_backup/kernel/virtio_disk.c:184-197 | frees the three descriptors of a request and reaches neither panic |
| VirtioDisk.Disk.Request | pgtbl/system_backup/kernel/virtio_disk.c:214-276 | hands the request to the device, with its header, its three descriptors and its status byte made out, or changes nothing and sleeps; DeviceFinds says what the request means |
| VirtioDisk.DeviceFinds | pgtbl/system_backup/kernel/virtio_disk.c:234-265 | following the descriptors of any request in flight the device finds what was asked for: direction, the buffer's data with length BSIZE and the matching write flag, its own status byte, and a sector such that, below block 2^31, the bytes transferred are exactly those of the block |
| VirtioDisk.TransfersApart | pgtbl/system_backup/kernel/virtio_disk.c:218-218 | requests in flight for different blocks have no byte of the disk in common |
| VirtioDisk.Disk.DeviceTake | pgtbl/system_backup/kernel/virtio_disk.c:267-275 | the device takes requests in the order they were made available and reads each as it was made |
| VirtioDisk.Disk.Finish | pgtbl/system_backup/kernel/virtio_disk.c:286-292 | frees the chain of a completed request without panic |
| VirtioDisk.Disk.Intr | pgtbl/system_backup/kernel/virtio_disk.c:294-327 | hands back exactly the completions that are waiting; its status panic is unreachable for a conforming device |
| Pipe.Counters | pgtbl/system_backup/kernel/pipe.c:88-96 | with 32-bit wrapping counters the full and empty tests and the ring index mean what the true counts mean |
| Pipe.PipeBuf.WriteTurn | pgtbl/system_backup/kernel/pipe.c:76-103 | bytes are put on the ring in order, and where the turn ends; a sleeping writer means a full pipe with a reader; from a state in which sleeping readers mean an empty open pipe that fails afterwards exactly when the writer was killed after putting a byte and a reader slept, and every other turn restores it |
| Pipe.PipeBuf.ReadTurn | pgtbl/system_backup/kernel/pipe.c:105-130 | bytes taken off are always a prefix of the bytes put on; a reader goes to sleep only on an empty pipe with its write end open; a byte that copyout cannot store is lost |
| Pipe.PipeBuf.Close | pgtbl/system_backup/kernel/pipe.c:58-74 | closing an end wakes the other side and keeps the invariant |
| Pipe.ForgottenReader | pgtbl/system_backup/kernel/pipe.c:83-87 | the killed exit skips the wakeup: a reader sleeps on a pipe that holds a byte |
| HeapOps.FreedOwned | pgtbl/system_backup/user/umalloc.c:24-44 | free keeps exactly the same units: nothing is lost or shared |
| HeapOps.FreedCoalesced | pgtbl/system_backup/user/umalloc.c:32-42 | the free list stays fully coalesced |
| HeapOps.FreedLinked | pgtbl/system_backup/user/umalloc.c:29-43 | the free list stays one address-ordered ring through base |
| UserMalloc.SearchStops | pgtbl/system_backup/user/umalloc.c:30-32 | free's search stops exactly at the free block (or base) before the freed one |
| UserMalloc.SearchGoesOn | pgtbl/system_backup/user/umalloc.c:30-31 | until then each round gets closer, passing base at most once |
| UserMalloc.Allocator.Free | pgtbl/system_backup/user/umalloc.c:24-44 | the heap is the old one with the block freed and joined with its free neighbours |
| UserMalloc.Allocator.Morecore | pgtbl/system_backup/user/umalloc.c:46-61 | adds one region of at least 4096 units at the end, as a free block |
| UserMalloc.Allocator.Malloc | pgtbl/system_backup/user/umalloc.c:63-90 | takes the units from the end of a free block that is large enough, asking the kernel at most once; 0 only when no block is large enough and the kernel refuses; for every request the heap can meet, and up to 2^31 - 32 bytes when the kernel gives more |
| UserMalloc.MallocMeaning | pgtbl/system_backup/user/umalloc.c:63-90 | one more block in use, holding at least nbytes, all others kept, and the blocks tile what the kernel gave |
| UserMalloc.FreeMeaning | pgtbl/system_backup/user/umalloc.c:24-44 | one block in use less, all others kept, same units |
| UserMalloc.LiveApart | pgtbl/system_backup/user/umalloc.c:63-90 | blocks in use never overlap |
| UserMalloc.MorecoreAsks | pgtbl/system_backup/user/umalloc.c:52-54 | sbrk's int argument is the size of the new block if and only if the request is at most 2^31 - 32 bytes |
| UserMalloc.HugeRequest | pgtbl/system_backup/user/umalloc.c:52-54 | for a request of 2^32 - 1 bytes sbrk is asked for 16 bytes |
| Directory.Namecmp | pgtbl/system_backup/kernel/fs.c:543-547 | equality of names cut to DIRSIZ |
| Directory.PadRoundTrip | pgtbl/system_backup/kernel/fs.c:600-600 | storing a name in an entry and reading it back cuts it to DIRSIZ |
| Directory.MapHas | pgtbl/system_backup/kernel/fs.c:549-575 | a directory with unique names is a finite map, whatever the order of its entries |
| Directory.Dirlookup | pgtbl/system_backup/kernel/fs.c:549-575 | finds an entry if and only if the map has the name, with the map's inode number |
| Directory.PutNew | pgtbl/system_backup/kernel/fs.c:600-606 | a new name in a free or new entry adds one pair to the map |
| Directory.PutFree | pgtbl/system_backup/kernel/sysfile.c:222-224 | clearing an entry removes one name from the map |
| Directory.Dirlink | pgtbl/system_backup/kernel/fs.c:577-606 | -1 exactly when the name is present or the entry cannot be written, and then nothing changed; otherwise the name is in the first free entry |
| Directory.LinkedMap | pgtbl/system_backup/kernel/fs.c:589-606 | the map gains exactly the name, names stay unique, and . and .. stay the first two entries |
| Directory.ClearedMap | pgtbl/system_backup/kernel/sysfile.c:222-224 | the map loses exactly the name, names stay unique, and . and .. stay the first two entries |
| Directory.NewEntriesMap | pgtbl/system_backup/kernel/sysfile.c:276-280 | a new directory is exactly . and .., in this order |
| Directory.IsDirEmpty | pgtbl/system_backup/kernel/sysfile.c:172-186 | no entry in use after the first two |
| Directory.EmptyMeans | pgtbl/system_backup/kernel/sysfile.c:172-186 | with . and .. first, no entry in use after the first two means that they are the whole map |
| PathWalk.Skipelem | pgtbl/system_backup/kernel/fs.c:610-645 | the first slash-separated element cut to DIRSIZ, and a rest whose elements are the remaining ones |
| PathWalk.Itable.Namex | pgtbl/system_backup/kernel/fs.c:647-684 | the fold of lookups over the path's elements, one short for nameiparent; every reference taken and not returned is dropped, on every exit; ilock's panic exactly where the fold meets an inode that is not allocated |
| PathMeaning.ElemsConcat | pgtbl/system_backup/kernel/fs.c:610-645 | the elements of p/q are those of p followed by those of q, for all strings |
| PathMeaning.ElemsOne | pgtbl/system_backup/kernel/fs.c:610-645 | a path without slashes is one element |
| PathMeaning.WalkIff | pgtbl/system_backup/kernel/fs.c:647-684 | namei finds an inode if and only if a trail of directories leads to it, each the entry of the next element |
| PathMeaning.ParentIff | pgtbl/system_backup/kernel/fs.c:662-667 | nameiparent finds a directory if and only if namei of the path without its last element finds it, and returns that element |
| PathMeaning.AbsolutePath | pgtbl/system_backup/kernel/fs.c:655-658 | a path with a slash in front is looked up from the root, whatever the current directory |
| PathMeaning.RelativePath | pgtbl/system_backup/kernel/fs.c:655-658 | any other path is looked up from the current directory |
| DirTreeProof.NextInv | pgtbl/system_backup/kernel/sysfile.c:123-302 | from unique names, . and .. first and . the directory itself, every other name leading to an allocated inode, the .. of a named directory leading back, and link counts that cover names, subdirectories and links in the making, every step of create, link, unlink and iput leads to the same if and only if it does not raise a link count above 32767 |
| DirTreeProof.RunInv | pgtbl/system_backup/kernel/sysfile.c:123-302 | this holds after every sequence of steps by any processes from the root-only tree in which no link count wraps |
| DirTreeProof.NextNames | pgtbl/system_backup/kernel/sysfile.c:123-302 | every step, also one that makes a link count wrap, keeps names unique and . and .. first |
| DirTreeProof.RunNames | pgtbl/system_backup/kernel/fs.c:549-606 | after every sequence of steps no directory has two entries in use with one name, its first two are . (itself) and .., and its map is what its entries say |
| DirTreeProof.UnlinkAnswer | pgtbl/system_backup/kernel/sysfile.c:189-243 | while no link count has wrapped unlink's nlink panic is unreachable; it succeeds exactly for a name other than the dots that is not a directory with names besides its dots |
| DirTreeProof.NamesResolve | pgtbl/system_backup/kernel/fs.c:549-575 | every name leads to an allocated inode, except possibly the .. of a directory that has no name itself |
| DirTreeProof.AbsolutePathsSafe | pgtbl/system_backup/kernel/fs.c:647-684 | after every sequence of steps in which no link count wraps namex of an absolute path never meets ilock's panic |
| DirAnswers.CreateFound | pgtbl/system_backup/kernel/sysfile.c:257-265 | create of a name that is there returns its inode with one more reference, and nothing else changes, if and only if a file was asked for and it is a file or a device; otherwise it fails and nothing changes |
| DirAnswers.CreateNew | pgtbl/system_backup/kernel/sysfile.c:267-302 | create of a new name succeeds if and only if there are a free inode and room; then exactly this name is added, leading to an inode that was free, of the kind asked for, with one link and, for a directory, its dots, and no other inode changes |
| DirAnswers.PromiseAnswer | pgtbl/system_backup/kernel/sysfile.c:138-147 | link refuses exactly directories and otherwise adds one to the count |
| DirAnswers.EnterAnswer | pgtbl/system_backup/kernel/sysfile.c:149-169 | the name is added, leading to the inode, if and only if it was not there and there was room; otherwise the count is taken back |
| DirAnswers.UnlinkEffect | pgtbl/system_backup/kernel/sysfile.c:189-243 | unlink takes away exactly the name, one link, for a directory one of its parent's, and the inode if that was its last link and nobody holds it; or it fails and nothing changes |
| DirAnswers.ReleaseAnswer | pgtbl/system_backup/kernel/fs.c:336-362 | iput frees the inode if and only if that was the last reference and it has no links |
| DanglingDirs.WalkUp | pgtbl/system_backup/kernel/fs.c:647-684 | while every .. leads to an allocated inode no path from any allocated inode meets it |
| DanglingDirs.DanglesIff | pgtbl/system_backup/kernel/sysfile.c:222-237 | a step leaves a .. without an inode if and only if it frees a directory that is still the .. of another one |
| DanglingDirs.RemovedParent | pgtbl/system_backup/kernel/sysfile.c:222-237 | a run from the root-only tree that does: a directory and its parent are removed while the directory is somebody's current one, and a path through its .. panics |
| LinkCounts.ExactIff | pgtbl/system_backup/kernel/sysfile.c:123-302 | from link counts that are exactly names, subdirectories and links in the making every step leads to exact ones, except if and only if it is the last iput of a removed directory in which names were made or makes a count wrap |
| LinkCounts.LeakedFile | pgtbl/system_backup/kernel/sysfile.c:245-302 | a run from the root-only tree that ends with a file that has a link and no name |
| LinkOverflow.TooManyLinks | pgtbl/system_backup/kernel/sysfile.c:143-147 | a run from the root-only tree that makes 32768 names of one file in two directories, neither of them fuller than a directory can be: nlink wraps and the next unlink of the file panics |
| FileTree.InodeTable.Ialloc | pgtbl/system_backup/kernel/fs.c:198-219 | the first free inode number, or none exactly when all are taken |
| FileTree.InodeTable.Create | pgtbl/system_backup/kernel/sysfile.c:245-302 | refines the create step with ialloc's inode: an existing file or device is reused for a file, a new inode is linked or freed again, a new directory has its dots and raises the parent's count; keeps the tree's invariant unless the count wraps |
| FileTree.InodeTable.LinkStart | pgtbl/system_backup/kernel/sysfile.c:138-147 | refines the first half of sys_link: refuses a directory, otherwise one more link is promised; keeps the tree's invariant unless the count wraps |
| FileTree.InodeTable.LinkFinish | pgtbl/system_backup/kernel/sysfile.c:149-169 | refines the second half of sys_link: the promised link gets its name, or the count is taken back; keeps the tree's invariant |
| FileTree.InodeTable.Unlink | pgtbl/system_backup/kernel/sysfile.c:189-243 | refines the unlink step, never panicking: the entry is zeroed, counts go down, an inode without links and references is freed; keeps the tree's invariant |
| FileTree.InodeTable.Iput | pgtbl/system_backup/kernel/fs.c:336-362 | refines the iput step: the last reference to an inode without links frees it; keeps the tree's invariant |
| Regex.Matchhere | pgtbl/system_backup/user/grep.c:84-96 | true if and only if some prefix of the text, all of it under $, is in the pattern's language |
| Regex.Matchstar | pgtbl/system_backup/user/grep.c:98-106 | the same for a starred character |
| Regex.Match | pgtbl/system_backup/user/grep.c:72-82 | true if and only if the pattern matches at some start, under ^ at the first |
| GrepLines.Grep | pgtbl/system_backup/user/grep.c:11-35 | however read splits the input, the output is the matching lines before the first NUL, up to the first one longer than the buffer; all of them if every line with its newline is at most 1023 bytes |
| ShellWords.LineGood | pgtbl/system_backup/user/sh.c:345-447 | for every input line, each word the parser records is a maximal word of the line |
| ShellWords.Nulterminate | pgtbl/system_backup/user/sh.c:449-494 | exactly the ends of the recorded words become NUL |
| ShellWords.WordsIntact | pgtbl/system_backup/user/sh.c:449-494 | after nulterminate each recorded pointer is a C string equal to its word, and no other word is damaged |
| ShellParser.Gettoken | pgtbl/system_backup/user/sh.c:266-309 | the token starts at the first character that is not white space, and its kind says what it is: a longest word, >>, a symbol, or the end |
| ShellParser.SkipSpace | pgtbl/system_backup/user/sh.c:273-274 | the white-space loop computes the specified position |
| ShellParser.SkipWord | pgtbl/system_backup/user/sh.c:298-299 | the word loop computes the specified position |
| ShellGrammar.ParseIff | pgtbl/system_backup/user/sh.c:328-447 | for every line and command: parsecmd returns the command if and only if the line's tokens are a sentence of the shell's grammar that stands for it, with redirections before, between and after words, groups, pipes, lists and & as they stand |
| ShellGrammar.SyntaxErrorIff | pgtbl/system_backup/user/sh.c:328-447 | it panics with a syntax error if and only if the grammar derives no command |
| ShellGrammar.LexWords | pgtbl/system_backup/user/sh.c:266-309 | the words among the tokens are exactly the maximal words of the line, each once and in order |
| ShellGrammar.LineSound | pgtbl/system_backup/user/sh.c:345-447 | whatever part of a line parseline accepts is a sentence for its command |
| ShellGrammar.LineComplete | pgtbl/system_backup/user/sh.c:345-447 | every sentence, followed by the end or a closing parenthesis, is accepted with its command |
| ShellRoundTrip.ParsePrint | pgtbl/system_backup/user/sh.c:328-447 | for every command tree with legal words and at most 9 arguments per command, parsing its parenthesised printing returns the tree |
| ShellRoundTrip.LineOf | pgtbl/system_backup/user/sh.c:345-447 | the same for a command printed anywhere inside a line, up to a closing parenthesis |
| ShellRoundTrip.ParseInPlace | pgtbl/system_backup/user/sh.c:328-494 | parsecmd with nulterminate on the text of any legal command: the tree in memory is that command, every word of it a C string in the buffer |

## Left out

- Reader steps inside a commit: the cache and log classes run one call at a time; waiting in begin_op, bget and acquiresleep is a guard of the step, so a commit runs when nobody holds a buffer of the log or of a logged block.
- LogRuns.RunKeeps: a commit is one action of a run; its inside, block write by block write, is in Log.Commit and CrashSpec.
- More than one device: the cache serves one device number, different from 0.
- Lost buffers: the absence of the no buffers panic is not claimed, since NBUF equals LOGSIZE and readers also hold buffers.
- File system calls into the cache: FileSystem reads and writes the logical disk and records which blocks a transaction dirties; FsDisk joins it with the commit and recovery of CrashSpec, not with the cache and log classes call by call.
- Inode fields: FsDisk models size and addresses; type, nlink, major and minor and the inode cache are in the directory model only, and iput's truncation there is the inode becoming free.
- Directory entries are typed (inode number and name buffer); their 16-byte encoding and the block writes below them are not connected to FileSystem.
- PathWalk.Itable.Namex: runs on a tree that does not change during the walk; between walks DirTree's references stand for the inodes a system call holds. A lookup that returns an unallocated inode as the end of the path is left to the caller's ilock.
- ExecMemory.Exec: with exactly MAXARG = 32 arguments exec would write past its array of pointers; sys_exec passes at most 31 (sysfile.c:446-455), so 32 is excluded. The ELF header and program headers are given as a list of segments; inode locks, the entry point and the process name are not modelled.
- copyinstr, uvmfirst and userinit: they would repeat the arguments of copyin and of mapping one page.
- AddressGrowth.Uvmalloc: after a failure page tables added on the way stay in the tree, as in the code; only user memory and translations are restored.
- ProcMemory.ForkMemory: registers, open files and the name of the child are not modelled; the trapframe is one frame of unspecified bytes.
- Process steps: an acquire and the assignments under the lock before the next lock operation are one step; allocproc's scan of used slots is a choice of a free slot; other spinlocks are counted in the interrupt model only; pids do not wrap; weak memory is not modelled.
- Prompt death of killed processes: killed is tested before p->lock is taken, so it is not claimed that a killed process never sleeps.
- Pipe turns: a call is a sequence of turns under the lock; that a woken process runs again is left to the scheduler. pipealloc, pipeclose's kfree and file reference counts are not modelled.
- VirtioDisk.Disk.Alloc3Desc: the three rounds of its loop are written out.
- The device of VirtioDisk takes requests in order and completes them in any order with status 0; the transfer of the data itself and the memory-mapped registers are not modelled.
- UserMalloc.Allocator.Malloc: sbrk's answer is a parameter, the start of a block of the size malloc believes it asked for, above all earlier ones. For requests above 2^31 - 32 bytes, where the real sbrk is asked for another size, only a refusal is modelled.
- ShellParser: runs commands nowhere; the constructors' allocation is not modelled. The parser's loops are recursive functions, except gettoken's, peek's and nulterminate's.
- Assembly, traps, console, UART, PLIC, printf, the smaller user programs and the grading scripts.
