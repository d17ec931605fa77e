# xv6: models and proofs

xv6 (rev9) is a small Unix kernel with its user programs, written in C.  This project models its storage
stack, file system, process management, memory management, pipes, shell and pattern matcher in Dafny 4.11
and proves what they keep over every input and every interleaving.  `dafny verify dfyconfig.toml` checks
all of it.

## How it is built

Concurrent protocols are step machines: a state, events, when an event can happen, and the state after it.
A run is any sequence of events; nothing bounds its length, the number of processes or CPUs, or the sizes
of tables.  An invariant is proved for each step and the theorems are about every run; others say what each
step does field by field, and that a call that has begun can go on to its end.  A `panic` is a step that cannot
be taken, a result, or a precondition marked as such.

The code itself is in classes and methods with its loops, updated in place, and each is proved to be the
machine's step, or against a function that says what it computes.

| part | machine or specification | code |
|---|---|---|
| redo log | `LogMachine`, `LogAdmission`, `LogProgress` | `LogCode` |
| log over cache, and over the driver | `LogCache`, `LogStack`, `LogBuffers` | |
| buffer cache | `BufCache` | `BufCode` |
| disk driver | `Ide` | `IdeCode` |
| blocks, bitmap, file contents, image | `FsSpec`, `FsNeed` | `FsBitmap`, `FsCode`, `FsImage` |
| inode cache | `InodeCache`, `InodeRuns`, `InodeStale`, `InodeCrash` | `InodeCode` |
| directories and paths | `DirTree`, `Namespace` | `DirCode`, `Paths` |
| locks, sleep and wakeup | `SleepWakeup` | |
| processes | `ProcTable`, `ProcEffects` | `ProcCode` |
| page allocator | | `Kalloc` |
| page tables, and all address spaces together | `VmSpec`, `VmDealloc` | `VmCode`, `VmSystem` |
| the break, and the user-level allocator | `Break` | `Umalloc` |
| pipes | `PipeProtocol` | `PipeRing` |
| pattern matcher | | `Grep` |
| shell parser | `ShellGrammar`, `ShellLex`, `ShellSyntax` | `ShellCode` |

`Common` holds what several parts share.

## What turned out not to hold

Each has a concrete input or run, and the exact condition under which the code does what it should.

- Operations that keep to their budgets can make log_write panic: mkfs makes the log area one block too small
  (`FillReaches`, `PanicIffLogTooSmall`).
- bget can panic for want of buffers while every operation is within its budget and the log has room
  (`FullLogLeavesNoBuffer`, `NoBuffersIff`).
- kill(0) marks a free table entry, and the next child in it starts killed (`KillZeroMarksTheNextChild`,
  `CleanStepIff`).
- malloc gives a pointer to memory the process does not have, or a block that is too small, for requests above
  0x7FFF_FFF0 bytes (`FirstTooLarge`, `LargestRequestGetsNothing`, `LimitIff`, `Malloc`).
- growproc asked to give back everything fails, drops the pages and keeps the size (`GivesUpEverything`,
  `MappedIff`, `Growproc`).
- kfree of a page that is free makes the free list endless (`Kfree`).
- deallocuvm's skip over a missing table can step over mapped pages (`SkipsAMappedPage`, `CompleteIff`).
- setupkvm and copyuvm lose pages when the free list is too short (`OnlyPageIsLost`, `OnePageMoreIsLost`,
  `SetupKvm`, `CopyUvm`).
- mkfs's rounding of the root's size can add a block that is not mapped, and what writei puts there is not
  recorded in the inode on disk (`RootOfOneBlock`, `FixRootSize`, `RootEntryIsNotRecorded`, `Writei`).
- A crash leaks an inode whose last link went while it was open, and one whose freeing had not been committed
  (`UnlinkedOpenFileLeaks`, `UncommittedCloseLeaks`, `CrashLeaksIff`).
- create and link act on a directory that has been removed (`RemovedDirectoryIsReachable`, `CreateKeepsIff`,
  `LinkKeepsIff`), and its ".." can name an inode that is gone or a stranger (`RemovedDotDotCanDangle`,
  `RemovedDotDotNamesAStranger`, `DanglesUntilReused`, `WholeStepIff`).
- So namex and ilock can panic, and an inode can be freed under a pointer to it: iget takes any number
  (`StaleDotDotPanics`, `IlockPanics`, `FreedUnderAPointer`, `NeverGone`, `SafeStepIff`, `GetIsSafeIff`).
- A killed writer can fill a pipe and leave a reader asleep (`KilledWriterLeavesReaderAsleep`, `SleepStepIff`).

And one that holds for every input: the shell's >> never appends (`AppendIsOutput`).

## Model

| member | source | states |
|---|---|---|
| `LogMachine.HeaderRoundTrip` | xv6-public-xv6-rev9/log.c:85-111 | what write_head stores in the header block, whatever was there before, read_head reads back |
| `LogMachine.DurableRecovers` | xv6-public-xv6-rev9/log.c:115-121 | a disk that stands for an atomic disk recovers to it: replaying the header's entries over the homes gives that disk outside the log area |
| `LogMachine.FreshImageDurable` | xv6-public-xv6-rev9/mkfs.c:110-115 | the image mkfs makes, with an empty header, stands for itself |
| `LogMachine.CrashAtomicity` | xv6-public-xv6-rev9/log.c:69-121 | over every run, with crashes between any two block writes and again during recovery, the disk left behind recovers to the effect of exactly the committed groups, in order |
| `LogMachine.AllOrNothing` | xv6-public-xv6-rev9/log.c:145-199 | over every run, of the writes an operation issued either all are in one committed group, in order, or none is committed |
| `LogMachine.CommitsAreStable` | xv6-public-xv6-rev9/log.c:190-199 | no later step, crash or recovery takes back or reorders a committed group |
| `LogMachine.QuietCommit` | xv6-public-xv6-rev9/log.c:145-170 | in every reachable state, while a transaction is committed or recovered no operation is outstanding |
| `LogMachine.Admission` | xv6-public-xv6-rev9/log.c:125-140 | in every reachable state the header entries are pairwise distinct and never outgrow the header or the log area; and while every operation keeps to MAXOPBLOCKS new entries, entries plus the unused budgets of the outstanding operations are at most LOGSIZE |
| `LogMachine.RecoveryCompletes` | xv6-public-xv6-rev9/log.c:53-66 | from every reachable state a crash and then initlog run to the end, and the home area on disk is then the committed groups' effect |
| `LogProgress.CommitCompletes` | xv6-public-xv6-rev9/log.c:145-199 | from every reachable state in which a commit is under way it can be carried through; then exactly the writes of the open transaction are one more committed group, the log is empty and every home block on disk has the effect of all groups |
| `LogProgress.CommitGoesOn` | xv6-public-xv6-rev9/log.c:175-199 | the committing thread can always take its next step, which brings it one nearer to the end |
| `LogProgress.EndStartsCommit` | xv6-public-xv6-rev9/log.c:145-170 | the end of an operation takes it off the outstanding ones, and the last one starts the commit if anything was written |
| `LogProgress.PanicIsFinal` | xv6-public-xv6-rev9/log.c:215-218 | after a panic there is nothing but a crash |
| `LogAdmission.PanicIffLogTooSmall` | xv6-public-xv6-rev9/log.c:215-216 | in a run whose operations all keep to their budgets, one that still has budget can reach the panic "too big a transaction" if and only if the log area has at most LOGSIZE blocks, which is what mkfs makes |
| `LogAdmission.FillReaches` | xv6-public-xv6-rev9/log.c:125-140 | the run that shows it: three operations fill the log block by block to any level |
| `LogAdmission.FullLogRejectsAbsorption` | xv6-public-xv6-rev9/log.c:215-224 | with a full header log_write panics even for a block it would absorb, because the test comes before the search |
| `LogCode.Log.constructor` | xv6-public-xv6-rev9/log.c:53-66 | the machine at power-on over the given image |
| `LogCode.Log.Bread` | xv6-public-xv6-rev9/log.c:205-209 | an operation reads, of every home block, the effect of all committed groups and then of the writes of the open transaction |
| `LogCode.Log.BeginOp` | xv6-public-xv6-rev9/log.c:125-140 | admits exactly when no commit is running and n plus one full budget for every outstanding operation and the new one fits; then it is the machine's step, else nothing changes |
| `LogCode.Log.LogWrite` | xv6-public-xv6-rev9/log.c:211-230 | absorbs a repeated block, appends a new one, pins the buffer, or panics exactly on its two guards, whatever the operation has written before; the machine's step |
| `LogCode.Log.WriteHead` | xv6-public-xv6-rev9/log.c:101-111 | the header block holds the count and the entries; the rest of it and of the disk stays |
| `LogCode.Log.ReadHead` | xv6-public-xv6-rev9/log.c:85-95 | the in-memory header becomes the one on disk, in any array content |
| `LogCode.Log.WriteLog` | xv6-public-xv6-rev9/log.c:175-187 | one machine step for every entry, in order: each log block gets the cached block it stands for |
| `LogCode.Log.InstallTrans` | xv6-public-xv6-rev9/log.c:69-81 | one machine step for every entry, in order: each home gets its log block |
| `LogCode.Log.Commit` | xv6-public-xv6-rev9/log.c:190-199 | the whole sequence of commit as a run of the machine; nothing for an empty transaction |
| `LogCode.Log.EndOp` | xv6-public-xv6-rev9/log.c:145-170 | the last outstanding operation commits for all, and then every home block on disk has the effect of all committed groups |
| `LogCode.Log.PowerFail` | xv6-public-xv6-rev9/log.c:115-121 | memory is lost, the disk stays, and it is a step of the machine |
| `LogCode.Log.RecoverFromLog` | xv6-public-xv6-rev9/log.c:115-121 | afterwards every home block on disk has the effect of exactly the committed groups and the header is empty |
| `LogCache.StepRefines` | xv6-public-xv6-rev9/log.c:69-230 | with the log's blocks as buffers of the cache, every step of operations, readers, the committing thread and recovery is one step of the log's machine or none, and keeps the joint invariant |
| `LogCache.RunRefines` | xv6-public-xv6-rev9/log.c:69-230 | every run of the log over the cache stands for a run of the log's machine |
| `LogCache.CrashAtomicity` | xv6-public-xv6-rev9/log.c:175-199 | at every point of every run of the log over the cache, with readers getting and recycling buffers meanwhile, the disk under the cache recovers to exactly the committed groups |
| `LogCache.ReadsSeeEverything` | xv6-public-xv6-rev9/bio.c:99-109 | a loaded buffer somebody holds shows every committed group and everything the open operations have logged |
| `LogCache.ModifyStores` | xv6-public-xv6-rev9/bio.c:99-109 | an operation that changes a buffer it holds finds there what it put, and no other buffer changes |
| `LogCache.ThreadCanGoOn` | xv6-public-xv6-rev9/log.c:175-199 | a committing or recovering thread that holds the buffers it needs is never stopped by a malformed header or a short block |
| `LogCache.CommitFindsABuffer` | xv6-public-xv6-rev9/log.c:175-187 | while only pinned blocks are held, commit's bread of a log block finds a buffer, if the log area has at most NBUF blocks |
| `LogStack.StepKeeps` | xv6-public-xv6-rev9/ide.c:102-167 | with the driver's queue below the cache, every step is one step of the log over the cache or none, and keeps buffers, queue, device and disk in agreement |
| `LogStack.FinishIsReady` | xv6-public-xv6-rev9/ide.c:103-131 | whatever request the device finishes, the cache was waiting for it |
| `LogStack.CrashAtomicity` | xv6-public-xv6-rev9/log.c:69-199 | crash atomicity of the whole stack: wherever requests stand in the queue when the power fails, at every point of every run, what the device holds recovers to exactly the committed groups, in commit order |
| `LogStack.ReadsSeeEverything` | xv6-public-xv6-rev9/ide.c:138-167 | once its holder is out of iderw, the data in a held buffer is every committed group and everything the open operations have logged |
| `LogStack.CallersInTheStack` | xv6-public-xv6-rev9/ide.c:102-167 | in the stack a request goes to the end of the queue and its caller sleeps, the interrupt takes the first off and wakes its caller, and a caller returns exactly when its buffer has left the queue |
| `BufCache.CacheIsTransparent` | xv6-public-xv6-rev9/bio.c:62-142 | over every interleaving of holders that pass a changed buffer to log_write or bwrite before brelse, the disk seen through the cache equals a plain memory that only the edits change |
| `BufCache.StepIsTransparent` | xv6-public-xv6-rev9/bio.c:83-94 | no single step but an edit changes the disk seen through the cache; recycling a buffer in particular does not |
| `BufCache.HolderReadsLastEdit` | xv6-public-xv6-rev9/bio.c:99-109 | what a holder finds in its buffer is what was last put into that block by anyone |
| `BufCache.OneBufferOneHolder` | xv6-public-xv6-rev9/bio.c:69-94 | in every reachable state a block of a device has at most one buffer, and a buffer is busy exactly when some process holds it |
| `BufCache.LoggedStaysPut` | xv6-public-xv6-rev9/log.c:205-230 | from any state of the invariant, a logged block stays in the same buffer, valid and dirty, and its home on disk is untouched, until it is installed |
| `BufCache.NoBuffersIff` | xv6-public-xv6-rev9/bio.c:83-95 | over every run, bget has no buffer for a new block if and only if the distinct blocks that are held or pinned by the log are as many as there are buffers |
| `LogBuffers.FullLogLeavesNoBuffer` | xv6-public-xv6-rev9/bio.c:83-95 | the failing run of log and cache together, with the sizes of param.h: admitted operations within their budgets pin all buffers but one, a reader holds that, and bget of any other block panics |
| `BufCache.RoomForOneMore` | xv6-public-xv6-rev9/bio.c:83-95 | it has one while held buffers and pinned blocks together are fewer than NBUF |
| `BufCache.OneHolderIsEnough` | xv6-public-xv6-rev9/bio.c:95 | the failing run, for any number of buffers: the log pins all but one, as a full log does, one block is held, and bget of any block that is not cached panics |
| `BufCache.RunInv` | xv6-public-xv6-rev9/bio.c:16-21 | valid, dirty and busy agree with the disk, the holder and the log in every reachable state |
| `BufCache.HolderGoesOn` | xv6-public-xv6-rev9/bio.c:99-142 | over every run whoever has a buffer can go on with it: a read ends with the buffer valid, a write with the data on disk, a held buffer can be released, a changed one logged or written |
| `BufCode.Bcache.constructor` | xv6-public-xv6-rev9/bio.c:39-57 | the ring links all buffers both ways round, last one first, and every buffer is idle and of no device |
| `BufCode.Bcache.FindCached` | xv6-public-xv6-rev9/bio.c:69-72 | the forward scan ends, and misses the block exactly when no buffer caches it |
| `BufCode.Bcache.FindVictim` | xv6-public-xv6-rev9/bio.c:83-94 | the backward scan ends at the least recently released idle clean buffer, or at the head exactly when there is none |
| `BufCode.Bcache.Bget` | xv6-public-xv6-rev9/bio.c:62-96 | hit, wait or recycle as the machine allows; the panic exactly when the block is not cached and every buffer is busy or dirty; the victim is the least recently released one possible |
| `BufCode.Bcache.Bread` | xv6-public-xv6-rev9/bio.c:99-109 | the buffer it returns is held by the caller and shows the block's logical content, which changes for no block; it waits exactly for a busy block and panics exactly when the block is not cached and every buffer is busy or dirty |
| `BufCode.Bcache.Bwrite` | xv6-public-xv6-rev9/bio.c:112-119 | the held data goes to that block on disk and to no other, and nothing seen through the cache changes |
| `BufCode.Bcache.Brelse` | xv6-public-xv6-rev9/bio.c:124-142 | the buffer moves to the front, the others keep their order, and the ring stays a permutation of all buffers, linked both ways |
| `BufCode.Bcache.Iderw` | xv6-public-xv6-rev9/memide.c:38-59 | a dirty buffer is stored, an invalid one filled, and then it is valid and clean; no other block or buffer changes |
| `Ide.QueueRefinesMemory` | xv6-public-xv6-rev9/ide.c:102-167 | over every run of requests, device completions, interrupts and stray wakeups, buffers and disk are what the in-memory disk's synchronous iderw gives for the same requests in the same order |
| `Ide.StepRefines` | xv6-public-xv6-rev9/memide.c:38-59 | every driver step is one synchronous iderw, one change by a holder, or no change at all |
| `Ide.FirstComeFirstServed` | xv6-public-xv6-rev9/ide.c:151-155 | in every reachable state the requests made are those completed, in the order they were made, followed by the queue |
| `Ide.EachRequestOnce` | xv6-public-xv6-rev9/ide.c:115-128 | over every run, the requests for a buffer are as many as the effects they had, plus the one that is pending |
| `Ide.ReturnsWhenDone` | xv6-public-xv6-rev9/ide.c:161-166 | iderw returns from its loop exactly when its buffer has left the queue, and then its request has had its one effect |
| `Ide.NobodyForgotten` | xv6-public-xv6-rev9/ide.c:121-128 | whoever sleeps in iderw is in the queue, the queue's head is what the device works on, and so no wakeup is missed |
| `Ide.InsideIderw` | xv6-public-xv6-rev9/ide.c:138-167 | a caller sleeps from its request on, is woken by the interrupt for its buffer, and returns exactly when it finds its buffer done |
| `Ide.DriverGoesOn` | xv6-public-xv6-rev9/ide.c:102-131 | while there are requests the device or its interrupt can take a step that brings the end of the queue one nearer; the interrupt finishes the first request |
| `Ide.CallersGoOn` | xv6-public-xv6-rev9/ide.c:138-167 | a caller that is awake can look again, and a holder of a buffer that is not done can call iderw |
| `IdeCode.Driver.constructor` | xv6-public-xv6-rev9/ide.c:50-70 | no request and an idle device satisfy the machine's invariant, over any disk |
| `IdeCode.Driver.Iderw` | xv6-public-xv6-rev9/ide.c:138-159 | walking qnext to its end appends the buffer; the device starts exactly when the queue was empty; the machine's step |
| `IdeCode.Driver.FindEnd` | xv6-public-xv6-rev9/ide.c:153 | the walk ends at the queue pointer itself or at the last buffer's link |
| `IdeCode.Driver.Ideintr` | xv6-public-xv6-rev9/ide.c:103-131 | takes the first request off, finishes its buffer, starts the next or nothing; a spurious interrupt does nothing; the machine's step |
| `FsSpec.WordSet` | xv6-public-xv6-rev9/fs.c:376-382 | a block number stored in an indirect block is read back, and the other entries stay |
| `FsBitmap.MarkedBits` | xv6-public-xv6-rev9/fs.c:66-69 | setting the bit of a block in its byte of its bitmap block changes that block's bit and no other, in the same byte or elsewhere |
| `FsBitmap.ClearedBits` | xv6-public-xv6-rev9/fs.c:89-93 | the same for clearing it |
| `FsBitmap.Bitmap.Balloc` | xv6-public-xv6-rev9/fs.c:56-76 | the scan over bitmap blocks and bits ends at the first clear bit, which is set, and no other bit changes; the panic exactly when every bit is set |
| `FsBitmap.Bitmap.Bfree` | xv6-public-xv6-rev9/fs.c:81-95 | exactly the bit of that block is cleared |
| `FsCode.Fs.constructor` | xv6-public-xv6-rev9/fs.c:165-173 | a disk whose blocks each have one place makes a file system that is as it should be |
| `FsCode.Fs.Ialloc` | xv6-public-xv6-rev9/fs.c:181-200 | the lowest free number becomes an empty inode without links, or the panic exactly when every number is taken |
| `FsCode.Fs.Ifree` | xv6-public-xv6-rev9/fs.c:322-337 | the inode's number and exactly its blocks become free, and nothing else changes hands |
| `FsCode.Fs.Balloc` | xv6-public-xv6-rev9/fs.c:56-76 | the first free block is marked and zeroed and nothing else changes; the panic exactly when none is free |
| `FsNeed.NeedStep` | xv6-public-xv6-rev9/fs.c:359-388 | mapping a block takes exactly what it needs off the need of every range from it on |
| `FsCode.Fs.Bmap` | xv6-public-xv6-rev9/fs.c:361-388 | a mapped block is found with no change; otherwise exactly that file block becomes mapped, to a zeroed block that was free, with every block having one owner and no other file changed; the panic "out of blocks" exactly when it is unmapped and fewer blocks are free than it needs: one, or two with a missing indirect block |
| `FsCode.Fs.Readi` | xv6-public-xv6-rev9/fs.c:439-463 | the slice of the file's bytes at off, cut at its size, with zeroes where nothing is mapped; -1 exactly when off is past the end or off + n wraps around; no byte of any file changes; the panic "out of blocks" exactly when fewer blocks are free than the slice has unmapped ones, with a missing indirect block |
| `FsCode.Fs.Writei` | xv6-public-xv6-rev9/fs.c:467-496 | for any inode, with or without holes below its size: splices src into the file's bytes; -1 with no change exactly for the three refused ranges; no other file's bytes change; the inode on disk follows exactly when the file grew or no block that was written needed a new one named in the inode; the panic exactly when fewer blocks are free than the range has unmapped ones, with a missing indirect block, and it leaves a prefix of src in place and the size as it was |
| `FsCode.Fs.Filewrite` | xv6-public-xv6-rev9/file.c:117-155 | its chunks compose to one splice of exactly the bytes accepted: all, or the whole chunks below the largest file size; -1 exactly when that is not all; the panic exactly when fewer blocks are free than those bytes need |
| `FsCode.StaysWritten` | xv6-public-xv6-rev9/file.c:128-152 | whatever other writers do between two chunks, each byte a chunk put in place stays until a later chunk covers it |
| `FsCode.SpliceSplice` | xv6-public-xv6-rev9/file.c:132-152 | two adjacent splices are one |
| `FsCode.Fs.Itrunc` | xv6-public-xv6-rev9/fs.c:396-423 | every block the inode owned is given back, once, direct, indirect and through the indirect block; no other block changes hands and no block changes content; the size is 0 |
| `FsCode.Fs.FreeEntries` | xv6-public-xv6-rev9/fs.c:407-415 | every block named in the indirect block is given back |
| `FsImage.Image.constructor` | xv6-public-xv6-rev9/mkfs.c:108-115 | an image of zeroes satisfies the file system invariant |
| `FsImage.Image.Ialloc` | xv6-public-xv6-rev9/mkfs.c:224-235 | a new empty inode with one link keeps the invariant |
| `FsImage.Image.MapBlock` | xv6-public-xv6-rev9/mkfs.c:269-286 | the same as bmap, with blocks handed out in order |
| `FsImage.Image.Iappend` | xv6-public-xv6-rev9/mkfs.c:256-297 | the bytes are appended to the file, no other file changes, and the blocks handed out are exactly the blocks of files; it finds the image full exactly when fewer blocks are left than the bytes need |
| `FsImage.Image.FixRootSize` | xv6-public-xv6-rev9/mkfs.c:158-163 | after the rounding of the root's size its blocks are all mapped if and only if the size was no multiple of the block size before |
| `FsImage.RootOfOneBlock` | xv6-public-xv6-rev9/mkfs.c:158-163 | the failing input: a root of exactly one block gets a second one that is not there |
| `FsImage.RootEntryIsNotRecorded` | xv6-public-xv6-rev9/fs.c:488-494 | and the first entry the kernel writes there goes to a block that the inode on disk does not come to name |
| `FsImage.Image.Balloc` | xv6-public-xv6-rev9/mkfs.c:238-251 | the bitmap of the finished image marks exactly the metadata blocks and the blocks reachable from inodes, each reachable once |
| `FsImage.Mount` | xv6-public-xv6-rev9/mkfs.c:238-251 | the finished image is a running file system, whose block ownership starts exactly as mkfs leaves it |
| `InodeCache.OneSlotPerInode` | xv6-public-xv6-rev9/fs.c:225-255 | in every reachable state, whatever numbers iget is given, an inode number has at most one referenced slot |
| `InodeCache.RefIsPointers` | xv6-public-xv6-rev9/fs.c:257-266 | in every reachable state, whatever numbers iget is given, a slot's reference count is the number of outstanding pointers to it |
| `InodeCache.OneBusyHolder` | xv6-public-xv6-rev9/fs.c:271-312 | whatever numbers iget is given, I_BUSY has exactly one holder, and a holder that owes no iupdate sees exactly what is on disk |
| `InodeCache.LockedIsAllocated` | xv6-public-xv6-rev9/fs.c:271-300 | over every run, whatever numbers iget is given, whoever has locked an inode and read it has an allocated one, until iput frees it |
| `InodeCache.SafeStepIff` | xv6-public-xv6-rev9/fs.c:225-255 | a step keeps every pointer's inode allocated and freed by its last pointer only, if and only if it is no iget of a number that is free or that an iput or an ialloc is at work on; iget does not test this |
| `InodeCache.NoUseAfterFree` | xv6-public-xv6-rev9/fs.c:296-297 | over every run without such an iget, a pointer that is not at the end of the iput that freed it refers to an inode that is allocated on disk, and ilock's panic "no type" is unreachable |
| `InodeCache.FreeIsLastDrop` | xv6-public-xv6-rev9/fs.c:325-333 | over every run, iput frees only an allocated inode without links and its panic "iput busy" is unreachable; over every run without such an iget, nobody else refers to the number |
| `InodeCache.FreedOncePerAllocation` | xv6-public-xv6-rev9/fs.c:181-200 | over every run, whatever numbers iget is given and also when ialloc reuses a number before iput has finished, frees and allocations of a number balance exactly |
| `InodeCache.PointerGoesOn` | xv6-public-xv6-rev9/fs.c:260-340 | over every run whoever has a pointer can go on with it: lock it unless it is locked, drop it in exactly one of the two ways, and once iput has begun to free the inode carry that through; ilock stops only at its panic |
| `InodeCache.LeaksIffOrphanedBefore` | xv6-public-xv6-rev9/fs.c:315-320 | when every pointer has been dropped, after a run whose igets are of numbers in use and never of an orphan's, an inode is allocated without links if and only if it was so, with nobody referring to it, at the start |
| `InodeCache.OrphanForever` | xv6-public-xv6-rev9/fs.c:322-340 | such an inode stays allocated and unreferred to through every run that does not give its number to iget, and no name leads to that number |
| `InodeCache.OrphanStepIff` | xv6-public-xv6-rev9/fs.c:225-255 | the exact condition: a step ends an orphan if and only if it is an iget of its number |
| `InodeStale.GetIsSafeIff` | xv6-public-xv6-rev9/fs.c:225-255 | after an iget, no run that goes on without another bad one ever has a pointer whose inode is gone, if and only if the number was allocated and neither an iput nor an ialloc of it was under way |
| `InodeStale.IlockPanics` | xv6-public-xv6-rev9/fs.c:296-297 | the failing run: an inode is opened, unlinked and closed, then iget is given its number, and ilock panics "no type" |
| `InodeStale.FreedUnderAPointer` | xv6-public-xv6-rev9/fs.c:325-337 | the other: iget finds the slot while iput is inside itrunc, and the inode is freed although another pointer refers to it |
| `InodeCrash.CrashLeaksIff` | xv6-public-xv6-rev9/fs.c:322-340 | over every run of the cache, commits and crashes, where the names that lead to iget are real: after a crash no run can ever free an inode if and only if the last commit has it allocated and without links |
| `InodeCrash.UnlinkedOpenFileLeaks` | xv6-public-xv6-rev9/sysfile.c:224-226 | the failing run: a file is open, its last link goes, that is committed, and the machine crashes before it is closed |
| `InodeCrash.UncommittedCloseLeaks` | xv6-public-xv6-rev9/fs.c:322-340 | and another: the file was closed and its inode freed, but the crash came before that was committed |
| `InodeCrash.UncommittedAllocIsUndone` | xv6-public-xv6-rev9/fs.c:181-200 | while an inode allocated and not yet linked does not leak when the crash comes before the commit |
| `InodeCrash.ForgottenForever` | xv6-public-xv6-rev9/fs.c:322-340 | what a crash leaked stays allocated through every later run, commit and crash |
| `InodeCode.Icache.constructor` | xv6-public-xv6-rev9/fs.c:165-173 | unreferenced slots over a disk whose free inodes have no links satisfy the machine's invariant |
| `InodeCode.Icache.FindSlot` | xv6-public-xv6-rev9/fs.c:231-245 | the referenced slot of that number or else an unreferenced one; the panic exactly when every slot is referenced by another number |
| `InodeCode.Icache.Iget` | xv6-public-xv6-rev9/fs.c:225-255 | for any number: the machine's step, one more reference or a slot taken over and marked not valid; the panic exactly when every slot is referenced by another; the cache's invariant for all runs stays, and the safe one stays if and only if the panic was taken or the number was allocated with no iput or ialloc of it under way |
| `InodeCode.Icache.Ilock` | xv6-public-xv6-rev9/fs.c:271-300 | the machine's two steps: the holder gets the slot and reads the disk inode if the slot is not valid; "no type" exactly when it must read and finds a free inode, which cannot happen in a safe state |
| `InodeCode.Icache.Ialloc` | xv6-public-xv6-rev9/fs.c:181-200 | the lowest free number is claimed and the caller gets a pointer to it: two steps of the machine; the panics exactly when no number is free or every slot is referenced by another |
| `InodeCode.Icache.Iput` | xv6-public-xv6-rev9/fs.c:322-340 | one reference goes; the disk inode is freed and emptied exactly when that was the last one to a valid inode without links; no other slot changes |
| `DirTree.LinkCountsAreRight` | xv6-public-xv6-rev9/sysfile.c:116-281 | in every reachable state of create, the two steps of link, unlink and the freeing of inodes, a link count is the number of slots naming the inode, other than as ".", in linked directories, plus the links in progress |
| `DirTree.DirectoriesAreATree` | xv6-public-xv6-rev9/sysfile.c:239-281 | in every reachable state each linked directory but the root is named by exactly one slot, in its parent; its ".." is that parent; following ".." ends at the root |
| `DirTree.NoDanglingNames` | xv6-public-xv6-rev9/sysfile.c:208-209 | what a linked directory names exists, has a link and cannot be freed, so unlink's panic "nlink < 1" is unreachable |
| `DirTree.StepKeeps` | xv6-public-xv6-rev9/sysfile.c:182-236 | each step keeps link counts, dots, unique names and the tree |
| `Namespace.CreateNames` | xv6-public-xv6-rev9/sysfile.c:239-281 | name by name: the new name gives the new inode, which has the type asked for and, if a directory, itself and its parent under the dots; no other name and no other inode changes, but for the parent's link |
| `Namespace.LinkNames` | xv6-public-xv6-rev9/sysfile.c:141-149 | name by name: the new name gives the inode, and nothing else changes |
| `Namespace.UnlinkNames` | xv6-public-xv6-rev9/sysfile.c:205-230 | name by name: the name is gone, its inode has one link less, a directory takes one from its parent too, and no other name changes |
| `Namespace.OthersName` | xv6-public-xv6-rev9/sysfile.c:127-158 | the other steps change no name: a link count goes up or down, or an inode without links goes |
| `DirTree.CreateKeepsIff` | xv6-public-xv6-rev9/sysfile.c:239-281 | create keeps the invariant if and only if its directory is still linked, which the code does not test |
| `DirTree.LinkKeepsIff` | xv6-public-xv6-rev9/sysfile.c:141-149 | the same for the slot link writes |
| `DirTree.RemovedDirectoryIsReachable` | xv6-public-xv6-rev9/sysfile.c:182-230 | a run that leaves a directory with no links that a process can still have as its current directory |
| `DirTree.OnlyRemovedDotDotDangles` | xv6-public-xv6-rev9/fs.c:510-533 | in every reachable state the only slot of any directory that can name an inode that is gone is ".." of a removed directory |
| `DirTree.RemovedDotDotCanDangle` | xv6-public-xv6-rev9/sysfile.c:182-230 | the failing run: d and d/e are made and removed while a process holds e, and d is freed; ".." of e then names nothing |
| `DirTree.WholeStepIff` | xv6-public-xv6-rev9/sysfile.c:182-230 | the exact condition: a step leaves no slot naming an inode that is gone, if and only if it does not free the parent of a removed directory that is still held |
| `DirTree.WholeRun` | xv6-public-xv6-rev9/sysfile.c:116-281 | over every run without such a step, every slot of every directory names an inode |
| `DirTree.DanglesUntilReused` | xv6-public-xv6-rev9/sysfile.c:239-281 | a ".." that names nothing stays as it is, and names something again exactly when create takes the number |
| `DirTree.RemovedDotDotNamesAStranger` | xv6-public-xv6-rev9/sysfile.c:239-281 | the run that goes on to do so: ".." of a removed directory names a new file |
| `DirCode.Dirs.constructor` | xv6-public-xv6-rev9/mkfs.c:120-134 | mkfs's root satisfies the invariant |
| `DirCode.Dirs.Dirlookup` | xv6-public-xv6-rev9/fs.c:510-533 | the first used slot of that name, and none exactly when no used slot has it |
| `DirCode.Dirs.Dirlink` | xv6-public-xv6-rev9/fs.c:537-563 | refuses exactly a name that is there; otherwise the first empty slot or the end gets the entry and nothing else changes |
| `DirCode.Dirs.Isdirempty` | xv6-public-xv6-rev9/sysfile.c:166-178 | true exactly when every slot after the first two is empty |
| `DirCode.Dirs.Create` | xv6-public-xv6-rev9/sysfile.c:239-281 | for any directory of any state, removed or not: the new inode with its dots and its name; for a name that is there the inode exactly when it is a file and a file is asked for, and ilock's panic exactly when it is gone, which needs ".." of a removed directory; the invariant stays if and only if the name was there or the directory is linked |
| `DirCode.Dirs.Unlink` | xv6-public-xv6-rev9/sysfile.c:182-236 | for any directory of any state, removed or not: succeeds exactly for a name other than the dots that is there, is no non-empty directory and has a link; its two panics exactly for an inode that is gone or has no link; then it is the machine's step, else nothing changes; the invariant stays |
| `DirCode.Dirs.Link` | xv6-public-xv6-rev9/sysfile.c:116-162 | for any directory of any state, removed or not: both steps of link, or no change at all, for a directory or for a name that is taken; the invariant stays if and only if nothing was written or the directory is linked |
| `Paths.ElemsJoin` | xv6-public-xv6-rev9/fs.c:568-579 | the elements of p/q are those of p and then those of q, for all strings |
| `Paths.ElemsOfName` | xv6-public-xv6-rev9/fs.c:568-579 | a name without slashes that fits is its own only element |
| `Paths.Skipelem` | xv6-public-xv6-rev9/fs.c:581-603 | the first element, cut to DIRSIZ, and a rest without leading slashes whose elements are the others; no element exactly when the path has none; an empty rest exactly when it was the last |
| `Paths.Namex` | xv6-public-xv6-rev9/fs.c:610-642 | walks exactly the elements of the path, or all but the last, whose name it then gives; fails exactly when a directory on the way lacks the next one or is no directory, and panics exactly when one on the way is gone |
| `Paths.ParentThenLookup` | xv6-public-xv6-rev9/fs.c:645-657 | finding the parent and looking the last name up in it is finding the path |
| `Paths.NeverGone` | xv6-public-xv6-rev9/fs.c:610-642 | where every name leads to an inode no path makes namex panic, and what it finds exists |
| `Paths.StaleDotDotPanics` | xv6-public-xv6-rev9/fs.c:619-621 | the failing run: in a removed directory whose parent has been freed, every path through ".." makes namex panic |
| `Paths.WalkJoin` | xv6-public-xv6-rev9/fs.c:605-642 | walking two paths in a row is walking them joined |
| `Paths.DotDotGoesBack` | xv6-public-xv6-rev9/fs.c:605-642 | in every tree, entering a directory and then ".." comes back |
| `SleepWakeup.NoLostWakeup` | xv6-public-xv6-rev9/proc.c:363-417 | for any number of processes, CPUs, locks and channels, with interrupt handlers that also run on idle CPUs, in every reachable state a process asleep on a channel whose condition holds is about to be found by a waker that has not passed its entry |
| `SleepWakeup.QuiescentSleepersMustWait` | xv6-public-xv6-rev9/proc.c:363-404 | when no wakeup is owed, whoever sleeps has a false condition |
| `SleepWakeup.MutualExclusion` | xv6-public-xv6-rev9/spinlock.c:25-66 | in every reachable state no two processes hold the same lock or the process table's lock, and no process runs on two CPUs, although the table's lock is handed across swtch |
| `SleepWakeup.StepKeeps` | xv6-public-xv6-rev9/proc.c:272-342 | each single step of acquire, release, sleep, wakeup, yield, the scheduler, kill and an interrupt handler on an idle CPU keeps the invariant |
| `SleepWakeup.SleepReturnsWithItsLock` | xv6-public-xv6-rev9/proc.c:362-395 | over every run, a process that is inside sleep before a step and outside it afterwards holds the lock it passed in, on the CPU it runs on; it entered holding it, and its channel never changes in between |
| `SleepWakeup.WakeupKeepsTheLock` | xv6-public-xv6-rev9/proc.c:401-419 | over every run wakeup neither takes nor drops its caller's lock |
| `SleepWakeup.TakenLocksAreHeld` | xv6-public-xv6-rev9/spinlock.c:25-71 | over every run every lock that is taken, ptable.lock too, has a holder running on the CPU it remembers: no path leaves one taken |
| `SleepWakeup.WokenByItsChannel` | xv6-public-xv6-rev9/proc.c:401-409 | a sleeper stops sleeping only by a kill or by a wakeup on its channel that is at its entry |
| `SleepWakeup.CallGoesOn` | xv6-public-xv6-rev9/proc.c:326-395 | a process running inside sleep, wakeup or yield can take its next step unless it spins on a lock, and each step brings it one nearer to the end of the call |
| `SleepWakeup.CallBegins` | xv6-public-xv6-rev9/proc.c:362-388 | when sleep, wakeup and yield can be called, and that the caller is then inside the call, on its channel |
| `SleepWakeup.SchedulerGoesOn` | xv6-public-xv6-rev9/proc.c:272-300 | a scheduler goes through the table entry by entry, runs each one that is runnable and starts again |
| `SleepWakeup.ScanSkipsNobody` | xv6-public-xv6-rev9/proc.c:279-296 | it passes over an entry only if that is not runnable, and ends its pass only behind the last one |
| `SleepWakeup.DebtsAreReal` | xv6-public-xv6-rev9/proc.c:401-419 | a process owes a wakeup exactly from when it makes a condition true until it has finished a wakeup on that channel |
| `SleepWakeup.KillWakes` | xv6-public-xv6-rev9/proc.c:430-433 | kill leaves its target awake |
| `ProcTable.OneCpuPerStack` | xv6-public-xv6-rev9/proc.c:272-327 | over every interleaving of fork, exit, wait, kill and the scheduler, a CPU runs on a live kernel stack that its process owns, no other CPU runs that process, and no other process has that stack |
| `ProcTable.NoMissedExit` | xv6-public-xv6-rev9/proc.c:179-268 | the parent of a zombie is never left asleep in wait |
| `ProcTable.ParentsReachInit` | xv6-public-xv6-rev9/proc.c:201-208 | in every reachable state the chain of parents of a process in use ends at initproc |
| `ProcTable.ReapIsSafe` | xv6-public-xv6-rev9/proc.c:223-251 | when wait frees a kernel stack and a page directory, both are live, nobody else owns them, no CPU is on that stack, and exactly they are freed |
| `ProcTable.VictimIsOff` | xv6-public-xv6-rev9/proc.c:233-236 | a zombie that wait finds has left its CPU |
| `ProcTable.CleanStepIff` | xv6-public-xv6-rev9/proc.c:423-440 | free entries stay unmarked through a step if and only if it is no kill that finds a free entry |
| `ProcTable.CleanRun` | xv6-public-xv6-rev9/proc.c:423-440 | along a run whose kills find no free entry, no free entry is ever marked, and so no child starts killed |
| `ProcTable.ChildrenStartUnmarked` | xv6-public-xv6-rev9/proc.c:36-72 | after such a run the child that fork makes is not marked killed |
| `ProcTable.KillZeroMarksTheNextChild` | xv6-public-xv6-rev9/proc.c:423-440 | the failing run from the start: initproc is switched in, kills pid 0, which finds a free entry, and forks; its child is ready to run and marked killed |
| `ProcEffects.KillMarksAndWakes` | xv6-public-xv6-rev9/proc.c:421-440 | the first entry with the pid is marked and not asleep afterwards, its state is otherwise as it was, and no other entry changes |
| `ProcEffects.KillFindsItsProcess` | xv6-public-xv6-rev9/proc.c:421-440 | over every run a kill of a pid in use marks and wakes the process that has it and no other |
| `ProcEffects.PidsAreDistinct` | xv6-public-xv6-rev9/proc.c:46-48 | over every run no two processes have the same pid, and the next pid is new |
| `ProcEffects.WakeupWakesExactly` | xv6-public-xv6-rev9/proc.c:401-409 | exactly the sleepers on the channel become runnable, and nothing else changes |
| `ProcEffects.ForkMakesAChild` | xv6-public-xv6-rev9/proc.c:131-173 | entry by entry: the first free one becomes a runnable child of the caller with a new pid and the new memory, or stays free when memory is missing; no other changes |
| `ProcEffects.ExitEndsTheCaller` | xv6-public-xv6-rev9/proc.c:178-217 | entry by entry: the caller is a zombie, its children are init's, a waiting parent and, for a zombie child, a waiting init become runnable; nothing else changes |
| `ProcEffects.WaitReapsOrSleeps` | xv6-public-xv6-rev9/proc.c:223-266 | entry by entry: the first zombie child is taken out and its memory freed, or the caller returns, or it sleeps, each exactly when it should |
| `ProcEffects.LifeCycle` | xv6-public-xv6-rev9/proc.c:131-440 | over every run an entry goes from state to state only as it should: it runs when the scheduler picks it, sleeps, yields or exits by its own call, wakes by kill, its channel or a child's exit, and leaves by its parent's wait |
| `ProcEffects.TableLockIsHeld` | xv6-public-xv6-rev9/proc.c:304-354 | over every run ptable.lock, when taken, has a holder: no call leaves it taken |
| `ProcEffects.SchedulerGoesOn` | xv6-public-xv6-rev9/proc.c:272-300 | a scheduler goes through the table entry by entry, runs each one that is runnable and starts again |
| `ProcEffects.ScanSkipsNobody` | xv6-public-xv6-rev9/proc.c:279-296 | it passes over an entry only if that is not runnable, and goes on behind a process that switched out |
| `ProcEffects.ProcessGoesOn` | xv6-public-xv6-rev9/proc.c:304-354 | a running process can always go on: out to the scheduler, back from it, or into any call once ptable.lock is free; only init cannot exit |
| `ProcCode.Ptable.Wakeup1` | xv6-public-xv6-rev9/proc.c:399-407 | exactly the sleepers on the channel become runnable, and no other entry changes |
| `ProcCode.Ptable.Fork` | xv6-public-xv6-rev9/proc.c:131-173 | the scan and its failure exits are the machine's fork step; -1 exactly when an entry or memory is missing |
| `ProcCode.Ptable.Exit` | xv6-public-xv6-rev9/proc.c:179-219 | the loop that hands the children to init is the machine's exit step |
| `ProcCode.Ptable.Wait` | xv6-public-xv6-rev9/proc.c:223-267 | one pass of the loop is the machine's wait step |
| `ProcCode.Ptable.Kill` | xv6-public-xv6-rev9/proc.c:423-440 | 0 exactly when some entry has the pid; the first such entry is marked and not asleep afterwards, its state is otherwise as it was, and no other entry changes; the machine's step |
| `Break.MovesIff` | xv6-public-xv6-rev9/proc.c:110-125 | a successful growproc moves the break by exactly its argument if and only if that leaves a positive size or the argument is 0; asked for less than nothing it succeeds and moves nothing |
| `Break.MappedIff` | xv6-public-xv6-rev9/proc.c:110-125 | the size growproc records is what is mapped if and only if the call does not take it to exactly 0 |
| `Break.GivesUpEverything` | xv6-public-xv6-rev9/proc.c:117-120 | the failing input: asked to give back everything, growproc fails, the pages are gone and the size is as it was |
| `Umalloc.LimitIff` | xv6-public-xv6-rev9/umalloc.c:47-69 | the block holds its header and nbytes bytes and sbrk is asked for exactly its size, as a 32-bit signed number, if and only if nbytes <= 0x7FFF_FFF0 |
| `Umalloc.AboveLimit` | xv6-public-xv6-rev9/umalloc.c:47-69 | above that there are two families: sbrk is asked for nothing or less, or the rounding has wrapped to a single unit |
| `Umalloc.FirstTooLarge` | xv6-public-xv6-rev9/umalloc.c:54 | the failing input of the first family: for 0x7FFF_FFF1 bytes sbrk succeeds and gives nothing, wherever the break is |
| `Umalloc.LargestRequestGetsNothing` | xv6-public-xv6-rev9/umalloc.c:69 | the failing input of the wrapped rounding: the largest request gets a block with no room at all |
| `Umalloc.InsertedOk` | xv6-public-xv6-rev9/umalloc.c:32-44 | inserting a block and joining it with its neighbours keeps the list in address order with a gap between any two blocks, and adds exactly the units of that block |
| `Umalloc.FreeRing` | xv6-public-xv6-rev9/umalloc.c:32-44 | the pointers free writes link that list into a ring |
| `Umalloc.SearchStep` | xv6-public-xv6-rev9/umalloc.c:30-32 | the two stopping tests of free's search hold exactly at the block's place in the ring |
| `Umalloc.RunIsOneBlock` | xv6-public-xv6-rev9/umalloc.c:63-88 | a run of free units lies in a single free block |
| `Umalloc.TakeOk` | xv6-public-xv6-rev9/umalloc.c:74-84 | taking a whole block or its tail keeps the ring and moves exactly those units from free to live |
| `Umalloc.Allocator.FindPlace` | xv6-public-xv6-rev9/umalloc.c:29-32 | the search ends, at the element after which the block belongs |
| `Umalloc.Allocator.FreeBlock` | xv6-public-xv6-rev9/umalloc.c:25-45 | the block becomes free, the ring stays address ordered with no two adjacent free blocks |
| `Umalloc.Allocator.Free` | xv6-public-xv6-rev9/umalloc.c:25-45 | exactly that live block becomes free; free and live blocks are disjoint and tile exactly the memory obtained |
| `Umalloc.Allocator.Morecore` | xv6-public-xv6-rev9/umalloc.c:47-60 | fails exactly when the pages cannot be had or the break would leave the user's part; below 2^31 bytes at least 4096 units are otherwise obtained and freed; from 2^31 on sbrk is asked for less than nothing: no memory comes and the new header has none behind it, or the process gives back all it has and the call fails |
| `Umalloc.Allocator.Sbrk` | xv6-public-xv6-rev9/sysproc.c:46-57 | the old break, with the break and the mapped memory moved as growproc moves them |
| `Umalloc.Allocator.FindFit` | xv6-public-xv6-rev9/umalloc.c:73-89 | the search once round the ring ends at the first block with enough units, or finds none exactly when no block has them |
| `Umalloc.Allocator.Take` | xv6-public-xv6-rev9/umalloc.c:74-84 | the units returned were free and are live; the rest of the block stays on the ring |
| `Umalloc.Allocator.Malloc` | xv6-public-xv6-rev9/umalloc.c:63-90 | the search ends; null exactly when no free block has the units and no room or break lets sbrk give them; the caller gets null, or a new live block of memory the process has, apart from all others and holding nbytes, with the tiling exact, if and only if nbytes <= 0x7FFF_FFF0, but for a null after a wrapped rounding |
| `VmSpec.WalkIsPages` | xv6-public-xv6-rev9/vm.c:45-63 | the walk of the two-level structure finds exactly the entries of the partial map it refines |
| `Kalloc.OneList` | xv6-public-xv6-rev9/kalloc.c:58-95 | the links in the free pages determine the free list |
| `Kalloc.ThreadedDistinct` | xv6-public-xv6-rev9/kalloc.c:58-95 | a list of links that ends has no page twice |
| `Kalloc.Kmem.Kfree` | xv6-public-xv6-rev9/kalloc.c:60-78 | the page is in front of the list, no other page changes, and the links are a list afterwards if and only if the page was not free already |
| `Kalloc.Kmem.Kalloc` | xv6-public-xv6-rev9/kalloc.c:83-95 | a page that was free and is free no longer, with the rest of the list threaded as before; none exactly when the list is empty |
| `Kalloc.Kmem.Store` | xv6-public-xv6-rev9/kalloc.c:60-78 | what the owner of a page writes to it leaves the free list alone |
| `VmCode.Vm.constructor` | xv6-public-xv6-rev9/kalloc.c:46-54 | freerange puts every page on the free list once |
| `VmCode.Vm.WalkPgdir` | xv6-public-xv6-rev9/vm.c:45-63 | the table of that page; a new one is empty, comes from the free list, and changes no translation; none exactly when it is missing and may not or cannot be made |
| `VmCode.Vm.MapPages` | xv6-public-xv6-rev9/vm.c:70-89 | success changes exactly the translations of its range and nothing else; failure leaves a mapped prefix of it |
| `VmDealloc.CompleteIff` | xv6-public-xv6-rev9/vm.c:257-281 | deallocation leaves no page of its range mapped if and only if it starts at a table boundary, or in a table that exists, or nothing is mapped below its offset in the next table |
| `VmDealloc.SkipsAMappedPage` | xv6-public-xv6-rev9/vm.c:266-269 | the failing input of the skip over a missing table |
| `VmDealloc.PrefixDealloc` | xv6-public-xv6-rev9/proc.c:110-125 | when the mapped user pages are a prefix, as the callers keep them, deallocation is complete and leaves the shorter prefix |
| `VmCode.Vm.DeallocUvm` | xv6-public-xv6-rev9/vm.c:257-281 | the pages the loop visits are unmapped and their frames are free, each once; nothing else changes |
| `VmCode.Vm.AllocUvm` | xv6-public-xv6-rev9/vm.c:223-250 | 0 for a size in the kernel's part; the old size for a smaller one; otherwise the new size if and only if the free list has a page for each new page and for each directory slot of theirs without a table, and then exactly the first pages are mapped, the new ones zeroed; on failure no user page changes, and nothing is lost |
| `VmCode.Vm.FreeVm` | xv6-public-xv6-rev9/vm.c:285-299 | every page the space owns, directory, tables and user pages, goes back to the free list exactly once |
| `VmCode.Vm.SetupKvm` | xv6-public-xv6-rev9/vm.c:128-143 | succeeds if and only if the free list has one page for the directory and one for each directory slot the kernel's mappings touch, and then maps exactly those; pages are lost if and only if the list is not empty and shorter, and then all of it is |
| `VmCode.Vm.CopyUvm` | xv6-public-xv6-rev9/vm.c:317-344 | which of its four ends it takes, and so whether pages are lost, is decided by the length of the free list, the size and the tables needed; on success the child has the same flags and bytes on fresh frames and the parent is unchanged |
| `VmCode.OnlyPageIsLost` | xv6-public-xv6-rev9/vm.c:128-143 | the failing input: with one free page setupkvm fails and the page is gone |
| `VmCode.OnePageMoreIsLost` | xv6-public-xv6-rev9/vm.c:317-344 | another: with one page more than the kernel part takes, copyuvm fails and loses exactly one page, for every size above 0 |
| `VmCode.Vm.Growproc` | xv6-public-xv6-rev9/proc.c:110-125 | growproc's outcome, with room exactly when the free list is long enough for the new pages and tables; pages that stay keep frame, flags and contents; user pages are those below the recorded size if and only if the size was not taken to exactly 0 |
| `VmCode.CopyIsApart` | xv6-public-xv6-rev9/vm.c:317-344 | parent and child own no page in common |
| `VmCode.StoreIsInvisible` | xv6-public-xv6-rev9/vm.c:317-344 | a later store through one of two such spaces changes neither the translation nor the contents of the other |
| `VmSystem.Change` | xv6-public-xv6-rev9/proc.c:110-125 | one space that trades frames with the free list only leaves all spaces, the free list and the lost pages pairwise disjoint and together all frames |
| `VmSystem.Add` | xv6-public-xv6-rev9/proc.c:131-173 | so does a new space made of free frames, some of which may be lost |
| `VmSystem.Remove` | xv6-public-xv6-rev9/proc.c:236-240 | and a space whose frames all go to the free list |
| `VmSystem.System.constructor` | xv6-public-xv6-rev9/kalloc.c:46-54 | with every page free and no process the system's invariant holds |
| `VmSystem.System.CreateProc` | xv6-public-xv6-rev9/proc.c:36-59 | a new process with a kernel stack and only the kernel's part, exactly when there are pages for both; the stack comes back on failure; every other process keeps its pages, and pages are lost exactly on setupkvm's failing lengths of the free list |
| `VmSystem.System.ForkProc` | xv6-public-xv6-rev9/proc.c:131-148 | a kernel stack and a copy of one process's memory, exactly when the pages for both are there; the stack comes back on failure; every process's frames stay its own, and the invariant of the whole system stays |
| `VmSystem.System.GrowProc` | xv6-public-xv6-rev9/proc.c:110-125 | growproc for one process among many, succeeding exactly when the free list is long enough: no other process's pages change, and it loses its pages exactly when it gives up all of them |
| `VmSystem.System.ReapProc` | xv6-public-xv6-rev9/proc.c:233-245 | the process's kernel stack and frames are free and everybody else's stay |
| `VmSystem.System.Run` | xv6-public-xv6-rev9/proc.c:110-245 | any sequence of these keeps all user frames, tables, directories, kernel stacks and the free list pairwise disjoint, with user pages exactly those below each size |
| `PipeRing.SlotOf` | xv6-public-xv6-rev9/pipe.c:92 | the wrapped 32-bit counters fall on the same slots as unbounded ones |
| `PipeRing.TestsAreExact` | xv6-public-xv6-rev9/pipe.c:84 | after any number of wraparounds the tests for full and empty say exactly that |
| `PipeRing.FillCarries` | xv6-public-xv6-rev9/pipe.c:83-93 | pipewrite's loop takes exactly what fits, in order |
| `PipeRing.DrainCarries` | xv6-public-xv6-rev9/pipe.c:112-116 | piperead's loop gives exactly the next bytes that were sent |
| `PipeRing.Pipe.Copyin` | xv6-public-xv6-rev9/pipe.c:83-93 | the loop in place is Fill, and the bytes sent grow by exactly what it took |
| `PipeRing.Pipe.Copyout` | xv6-public-xv6-rev9/pipe.c:112-116 | the loop in place is Drain, and the bytes received grow by exactly what it returns |
| `PipeProtocol.DeliveredInOrder` | xv6-public-xv6-rev9/pipe.c:77-120 | over every run of any number of readers and writers, of any length and with any kills, what came out is a prefix of what went in, and at most PIPESIZE bytes are between |
| `PipeProtocol.ReadReturnsNext` | xv6-public-xv6-rev9/pipe.c:100-120 | a read that does not sleep returns the next bytes, and none exactly when it asked for none or the writers are gone and nothing is left |
| `PipeProtocol.WriteInserts` | xv6-public-xv6-rev9/pipe.c:77-97 | a write inserts its own bytes in order, as many as fit; if some are left the pipe is full, and if it sleeps those are what it still has to write |
| `PipeProtocol.WriterLosesNothing` | xv6-public-xv6-rev9/pipe.c:78-99 | over every run, until a writer leaves, what it has put in followed by what it still has to write is exactly what its write was given |
| `PipeProtocol.WriterLeaves` | xv6-public-xv6-rev9/pipe.c:84-99 | over every run, when a writer leaves all its bytes are in, in order, or a first part of them and the readers are closed or it was killed |
| `PipeProtocol.WriterLeavesIff` | xv6-public-xv6-rev9/pipe.c:84-99 | only its own steps put bytes in or make a writer leave, and it stays exactly while bytes are left, the pipe can be read and it has not been killed |
| `PipeProtocol.ReaderLeavesIff` | xv6-public-xv6-rev9/pipe.c:101-121 | only its own steps make a reader leave, and it stays exactly while the pipe is empty, may still be written and it has not been killed |
| `PipeProtocol.EndsAreOpen` | xv6-public-xv6-rev9/pipe.c:58-75 | an end is open exactly until it is closed |
| `PipeProtocol.KillWakes` | xv6-public-xv6-rev9/pipe.c:86-92 | a kill wakes its process inside the pipe and nobody else |
| `PipeProtocol.AwakeCanRun` | xv6-public-xv6-rev9/pipe.c:77-121 | whoever is not asleep can go on |
| `PipeProtocol.NeverBothAsleep` | xv6-public-xv6-rev9/pipe.c:83-111 | without kills, in every reachable state a sleeping reader means empty, a sleeping writer means full, and so they never sleep at once |
| `PipeProtocol.SleepStepIff` | xv6-public-xv6-rev9/pipe.c:85-88 | a step keeps that if and only if it is no writer giving up past a sleeping reader |
| `PipeProtocol.KilledWriterLeavesReaderAsleep` | xv6-public-xv6-rev9/pipe.c:85-88 | the failing run: a killed writer fills the pipe, leaves, and wakes nobody |
| `Grep.Match` | xv6-public-xv6-rev9/grep.c:73-82 | true exactly when some part of the text, anchored as ^ and $ say, can be cut into one piece for each item of the pattern, for every pattern and text |
| `Grep.Matchhere` | xv6-public-xv6-rev9/grep.c:85-96 | the same at the start of the text |
| `Grep.Matchstar` | xv6-public-xv6-rev9/grep.c:99-106 | true exactly when some run of the starred character is followed by a match of the rest |
| `Grep.DenotesCons` | xv6-public-xv6-rev9/grep.c:85-96 | a word for an item and a rest starts with a piece for that item |
| `Grep.ReadsAs` | xv6-public-xv6-rev9/grep.c:85-96 | for every first character and every rest: before * it is starred whatever it is, a final $ is the anchor, and anything else stands for itself |
| `ShellGrammar.PrintThenParse` | xv6-public-xv6-rev9/sh.c:344-446 | for every command tree, parsing its printed tokens gives the tree if every command has at most nine words, and panics if not |
| `ShellSyntax.ParsesIffWritten` | xv6-public-xv6-rev9/sh.c:344-446 | the parser is exactly the grammar: a token list parses to a command if and only if it can be written as a line, with redirections anywhere among the words and after blocks, at most nine words to a command, and the command is what the line means |
| `ShellSyntax.LineRead` | xv6-public-xv6-rev9/sh.c:344-446 | every line of the syntax parses to its meaning before any closing parenthesis or the end, or panics exactly for a command with too many words |
| `ShellSyntax.LineOnly` | xv6-public-xv6-rev9/sh.c:344-446 | whatever parses is a line of the syntax, up to where the parser stops |
| `ShellSyntax.AcceptsIffWritten` | xv6-public-xv6-rev9/sh.c:328-342 | the same for the text of a whole line, with the panic for leftovers |
| `ShellLex.TextRoundTrip` | xv6-public-xv6-rev9/sh.c:266-446 | writing any command tree as text, with any spaces, and parsing the text gives the same tree, or the panic exactly for a command with too many words |
| `ShellLex.LexSpaced` | xv6-public-xv6-rev9/sh.c:266-308 | tokens written with any spaces between them, none where two do not run into one, are read back |
| `ShellLex.MapParseLine` | xv6-public-xv6-rev9/sh.c:344-359 | the parser treats words alike: it commutes with every way of reading them |
| `ShellLex.ParsedWords` | xv6-public-xv6-rev9/sh.c:431-441 | every word of a parsed command is a whole word of the line |
| `ShellLex.AppendIsOutput` | xv6-public-xv6-rev9/sh.c:375-397 | replacing >> by > everywhere changes neither whether a line parses nor the command it parses to: the shell never appends |
| `ShellLex.ReadsIffLess` | xv6-public-xv6-rev9/sh.c:380-394 | the i-th redirection is the i-th pair of symbol and word, and it reads if and only if its symbol is < |
| `ShellCode.Gettoken` | xv6-public-xv6-rev9/sh.c:266-308 | the next token, its place and the cursor after it; 0 exactly at the end of the line |
| `ShellCode.Peek` | xv6-public-xv6-rev9/sh.c:311-320 | whether the next token starts with one of the characters, and a cursor that skips no token |
| `ShellCode.Parseredirs` | xv6-public-xv6-rev9/sh.c:375-397 | ends on every line; the redirections in the order they wrap the command, or the panic exactly when a file is missing |
| `ShellCode.Parseexec` | xv6-public-xv6-rev9/sh.c:416-446 | ends on every line; what the grammar says, with redirections anywhere among at most nine words, or its panics exactly |
| `ShellCode.Parseblock` | xv6-public-xv6-rev9/sh.c:400-413 | ends on every line; what the grammar says, or its panics exactly |
| `ShellCode.Parsepipe` | xv6-public-xv6-rev9/sh.c:362-372 | ends on every line; what the grammar says |
| `ShellCode.Parseline` | xv6-public-xv6-rev9/sh.c:345-359 | ends on every line; what the grammar says |
| `ShellCode.Parsecmd` | xv6-public-xv6-rev9/sh.c:328-342 | the command of the whole line, or a panic, also for leftovers |
| `ShellCode.Nulterminate` | xv6-public-xv6-rev9/sh.c:450-493 | a zero at the end of every word of the command, and nothing else in the line changes |
| `ShellCode.WordsReadBack` | xv6-public-xv6-rev9/sh.c:448-493 | after nulterminate every word, read as a C string, is exactly its token: no end of a word lies inside another |
| `ShellCode.ParseBuffer` | xv6-public-xv6-rev9/sh.c:328-342 | parsing and terminating in place: the command of the line, with every word reading back as its text |

## Left out

What the models take for granted:

- Shared memory is sequentially consistent, a section under a spinlock is one step where no step of it gives
  the lock up, and interrupts are disabled where the code disables them; pushcli's nesting is not modelled.
- A disk write of one block is atomic, reads have no errors, and the device interrupts only when a command is
  done or nothing is queued.  idestart's port commands are one step.
- Logged block numbers are outside the log area; log_write is one step although two of its tests precede its
  lock.
- Callers of the buffer cache pass a changed buffer to log_write or bwrite before brelse; callers of the inode
  cache call iupdate before they unlock a changed inode, and lock what ialloc gives before they drop it.
- A process inside piperead or pipewrite has that end of the pipe open.
- Counters are unbounded.  The sizes of the system keep link counts and reference counts small; pids only grow,
  and their wrap-around is not modelled.

What is not modelled, because it would only add easier members or is hardware:

- Booting, traps, system call arguments, exec, console, printf, timer, and the other user programs.
- Device files in readi and writei; fileread, filealloc, filedup and fileclose; fdalloc.
- uva2ka, copyout, loaduvm, inituvm and clearpteu.
- The layout of inodes in their blocks, which is a map; FsCode has the bitmap as a sequence of bits, which
  FsBitmap packs.  In the same way VmSpec has the free list as a sequence, which Kalloc threads through the
  pages; neither pair is composed.
- Names are strings of at most DIRSIZ characters; how they are padded in a slot is not modelled.
- runcmd: what a parsed command does.  grep's reading of its input in pieces.
- Deadlock between locks held by one process, and starvation.

Members that state less than one might expect:

- FsCode.Fs.Filewrite: is the only writer, and requires that exactly the blocks below the size are mapped;
  FsCode.StaysWritten is about other writers between two chunks, where the inode is unlocked.
- FsImage.Image.Iappend: reports a full image, for which mkfs has no test.
- VmSystem.System.ForkProc: requires a process that has its pages; copyuvm panics for one that growproc has
  left without them.
- LogStack.CrashAtomicity: the one disk the file system is on; operations change only blocks outside the log
  area and log them before they release them.
- ShellCode.Parseexec: collects the words and redirections and builds the command at the end; the code fills
  the array of words of a command that redirections already wrap.
- InodeCrash.CrashLeaksIff: a leak is judged over runs whose igets are of numbers that a link or a pointer leads to.
- InodeCode.Icache.Iput: is not interrupted; the interleavings are in InodeCache.
- LogCode.Log.BeginOp: is one pass of the loop; sleeping and waking are in SleepWakeup.
- BufCode.Bcache.Bget: is one pass of the scan; sleeping and waking are in SleepWakeup.
- ProcCode.Ptable.Wait: is one pass of the loop; sleeping and waking are in ProcTable.
- SleepWakeup.NoLostWakeup: a handler that interrupts a process holding no lock is taken as steps of that
  process.
