# Verified models of the xv6 core

This project models the parts of the teaching operating system in `xv6/` (and of the CLOCK example in
`w11/`) whose correctness depends on more than one function: the crash-safe log with the buffer
cache, the process table, sleep locks, the file layer, the user-level allocator, page tables with the
frame allocator, the shell's parser, pipes, the CLOCK replacement ring and the `grep` matcher.  Results
hold for all inputs.  Five state machines cover all interleavings of their steps: log admission, the
block store, the process table, sleep locks and pipes.  The code classes are sequential: a method runs
from call to return with nobody in between.

## How it is organised

Most components have two layers.

- A layer on values: the data, the operations as functions or as steps of a state machine, an
  invariant, and the theorems about every run.
- A layer of code: a class whose methods have the loops and in-place updates of the C code, proved
  equal to the value layer or to a property stated outright.

| files | component |
|---|---|
| `WriteAheadLog`, `LogAdmission`, `LogCode` | `xv6/log.c`: crash atomicity, reservations, the code |
| `BufferCache`, `BlockStore`, `CommitBuffers` | `xv6/bio.c`: the LRU cache, cache plus log as one block store, and when a commit runs out of buffers |
| `ProcessTable`, `ProcessLife`, `ProcCode` | `xv6/proc.c`: the invariants of the process table, what each step does to a process, the table scans |
| `SleepLock` | `xv6/sleeplock.c` with `sleep` and `wakeup` |
| `DiskFormat`, `FileLayer`, `FileLayout`, `FileSpace`, `FileTruncate`, `FileFormat`, `FileCode` | `xv6/fs.c` and `filewrite` of `xv6/file.c`: block ownership, free blocks, file contents |
| `FileCalls`, `FileRecovery` | file system calls as block changes, and the file layer on top of the log: files after a crash |
| `FreeList`, `FreeListLinks`, `FreeListHeap`, `Umalloc` | `xv6/umalloc.c` |
| `PageTables`, `FrameList`, `VmSpec`, `VmGrow`, `VmSpace`, `VmCount`, `VmCode` | `xv6/vm.c` and `xv6/kalloc.c` |
| `ShellLex`, `ShellGrammar`, `ShellDerive`, `ShellShow`, `ShellCode`, `ShellTerminate` | the parser of `xv6/sh.c` |
| `SecondChance`, `ClockRing` | `w11/clock-example.c` |
| `PipeRing`, `PipeCode` | `xv6/pipe.c` |
| `Regex` | the matcher of `xv6/grep.c` |

Sizes such as the number of buffers, processes, CPUs, log blocks and ring slots are parameters.
Integers are unbounded where the source cannot overflow; 32-bit wrap-around is written out where it
matters (file offsets, pipe counters, `kmap` sizes, the sizes of `malloc`).  A kernel `panic` is either an error result, or
an assertion that the panic cannot be reached.

Some large invariants are *folded*: `forall k | Look(k) :: P(...)` means `P(...)`, but the verifier
looks inside only in proofs that mention `Look`, or `Peek` for those inside others.  `Common` explains
the idiom.

## Properties that are false of the code

- `log_write` can panic for an operation that stays within its budget of blocks.
  `LogAdmission.LogWritePanics` says exactly when; `RewriteCanPanic` and `FirstWriteCanPanic` reach it.
- The log header can outgrow the log area, because `log_write` tests the size before it takes
  `log.lock`: two calls test when there is room for one, and both append.  `LogAdmission.HeaderFits` says
  exactly for which sizes it cannot happen; `OverrunReachable` reaches it, and `MkfsLogOverruns` finds
  the sizes of `mkfs` among those.  `write_log` would then write the block after the log area
  (`BlockStore.OverrunLeavesLog`).
- A commit can panic in `bget` for want of a buffer, in `write_log` or in `install_trans`, because header
  blocks stay pinned until they are installed.  `CommitBuffers.NoBuffersExactly` says exactly when;
  `CommitCanPanic` and `InstallCanPanic` reach it in either half while somebody reads one block, and
  `CommitAloneIsSafe` excludes it while nobody does.
- A `write` that returns -1 can have written: `filewrite` stops at the first piece that does not fit.
  `FileCode.AllOrNothing` says exactly when it writes all or nothing; `FailedWriteCanWrite` is an instance.
- `malloc` of more than 2^32 - 8 bytes returns a block that is too small, and of a size between that and
  2^31 it calls `sbrk` with an argument that is not positive and then uses memory that it did not get.
  `Umalloc.UnitsCover` and `Umalloc.SbrkIsAsked` say exactly when; `HugeRequestIsEmpty` and
  `BigRequestAsksForNothing` are instances.
- A `pipewrite` that gives up leaves a sleeping reader beside unread bytes.
  `PipeRing.WriteWakesReaders` says exactly when; `ReaderCanMissAWakeup` reaches it on a new pipe of PIPESIZE bytes.
- If `sleep` released its caller's lock before taking `ptable.lock`, wakeups would be lost:
  `SleepLock.EarlyReleaseLosesWakeup` shows such a run of the changed protocol.
- A page that `clk_remove` took out of the ring keeps its present bit; `SecondChance.Managed` keeps
  track of such pages, and `SecondChance.ManagedRemoved` states it.
- `clk_remove` before the first insert reads the array at index -1.  `ClockRing.SearchStaysInside` says
  exactly when its search stays inside the array.

## Model

| member | source | states |
|---|---|---|
| `WriteAheadLog.CrashAtomicity` | xv6/log.c:69-202 | stop `commit` after any write, let any number of recoveries crash anywhere, then recover: all home blocks are as before if the header write was not reached, and all as after once it was |
| `WriteAheadLog.HistoryIsAtomic` | xv6/log.c:69-202 | any sequence of transactions, crashes and crashing recoveries leaves the same home blocks as running each transaction entirely or not at all |
| `WriteAheadLog.AttemptIsAtomic` | xv6/log.c:116-202 | one transaction with its crashes is all or nothing and leaves an empty log |
| `WriteAheadLog.RecoveryPrefix` | xv6/log.c:69-122 | a recovery stopped after any number of writes leaves the disk meaning the same contents, and an empty log when it finishes |
| `WriteAheadLog.RecoveryCompletes` | xv6/log.c:115-122 | a full recovery empties the log and makes the home blocks what the disk meant |
| `WriteAheadLog.AfterCrashesMeansTheSame` | xv6/log.c:69-122 | any number of interrupted recoveries change nothing about what the disk means |
| `WriteAheadLog.CommitPrefix` | xv6/log.c:177-202 | after the first `k` writes of a commit the disk means the old contents up to the header write and the new ones from then on |
| `WriteAheadLog.HeadWriteCommits` | xv6/log.c:101-113 | writing the header is the commit point: the disk then means every logged block's new contents |
| `WriteAheadLog.CommittedDisk` | xv6/log.c:192-202 | after the header write, the rest of `commit` performs exactly the writes of a recovery |
| `WriteAheadLog.HeadRoundTrip` | xv6/log.c:85-113 | `read_head` reads back what `write_head` wrote |
| `WriteAheadLog.InstallPrefix` | xv6/log.c:69-82 | installing any prefix of the log leaves what recovery would read unchanged |
| `WriteAheadLog.EraseIsSilent` | xv6/log.c:199-200 | once everything is installed, erasing the header changes no home block |
| `LogAdmission.AdmissionSafe` | xv6/log.c:125-233 | in every run: `lh.n` plus all unused reservations is at most LOGSIZE, logged blocks are distinct, a commit excludes operations, and a sleeper on the log has a commit or an operation to wait for |
| `LogAdmission.StepKeepsInv` | xv6/log.c:125-233 | every step of `begin_op`, `log_write`, `end_op` and commit keeps that invariant |
| `LogAdmission.BeginAdmits` | xv6/log.c:125-141 | `begin_op` admits exactly if no commit runs and `lh.n` and MAXOPBLOCKS for every operation, its own included, fit in LOGSIZE; otherwise its caller sleeps and nothing else changes |
| `LogAdmission.EndWakes` | xv6/log.c:145-164 | the last `end_op` starts a commit; any other one wakes all sleepers and changes nobody else |
| `LogAdmission.EndCommitWakes` | xv6/log.c:166-173 | the end of a commit clears `committing` and wakes all sleepers |
| `LogAdmission.EndOpLeavesNoSleeper` | xv6/log.c:145-174 | after a whole `end_op`, whether it commits or not, nobody sleeps on the log |
| `LogAdmission.AppendAbsorbs` | xv6/log.c:224-230 | a logged block is appended to the header once, and a block that is there stays where it is |
| `LogAdmission.EndNeverPanics` | xv6/log.c:146-153 | the `log.committing` panic of `end_op` is unreachable |
| `LogAdmission.LogWritePanics` | xv6/log.c:213-222 | exactly when the tests of `log_write`, which run before it takes the lock, panic in an operation within its budget |
| `LogAdmission.RewriteCanPanic` | xv6/log.c:213-222 | logging a block again can panic when the log is full |
| `LogAdmission.FirstWriteCanPanic` | xv6/log.c:213-222 | with `log.size` equal to LOGSIZE, a first write within the budget can panic |
| `LogAdmission.HeaderFits` | xv6/log.c:213-233 | the header leaves room for itself in the log area in every run of any number of processes exactly if the area is bigger than LOGSIZE, or operations run one at a time, or nothing can be logged |
| `LogAdmission.OverrunReachable` | xv6/log.c:218-230 | for all other sizes, a run of two processes whose header gets as long as the log area |
| `LogAdmission.MkfsLogOverruns` | xv6/log.c:218-230 | the sizes of xv6, three operations in LOGSIZE and a log area of LOGSIZE blocks, are among these |
| `LogCode.Log.WriteLog` | xv6/log.c:177-190 | the loop writes the cached contents of the logged blocks to the log, in order |
| `LogCode.Log.WriteHead` | xv6/log.c:101-113 | the header block gets the count and block numbers and keeps its other words |
| `LogCode.Log.ReadHead` | xv6/log.c:85-96 | the in-memory header becomes the one on disk |
| `LogCode.Log.InstallTrans` | xv6/log.c:69-82 | the loop copies every logged block home and unpins its buffer |
| `LogCode.Log.RecoverFromLog` | xv6/log.c:115-122 | recovery performs exactly the modelled writes; block `j` of the log is then in the place that word `j` of the header names, and every other block outside the log is as before |
| `LogCode.Log.Commit` | xv6/log.c:192-202 | `commit` performs exactly the writes whose crashes `CrashAtomicity` covers; every block outside the log then holds its buffer if it was logged, and what it held otherwise |
| `LogCode.Log.LogWrite` | xv6/log.c:213-233 | absorption: a block is logged once, and is pinned in the cache; the call is the test and append steps of the admission machine, panics included |
| `LogCode.Log.BeginOp` | xv6/log.c:125-141 | admits exactly if no commit runs and `lh.n + (outstanding+1)*MAXOPBLOCKS` is at most LOGSIZE; one pass of the loop is the `begin_op` step of the admission machine |
| `LogCode.Log.EndOp` | xv6/log.c:145-174 | the last operation commits; the others only leave; the call is the `end_op` steps of the admission machine |
| `BufferCache.Cache.constructor` | xv6/bio.c:38-56 | `binit` links all buffers into one ring |
| `BufferCache.Cache.Bget` | xv6/bio.c:61-93 | the buffer of that device and block with one more reference if there is one; else the least recently released buffer without references that is not dirty, assigned to the block with one reference and no valid contents; or a panic exactly if there is none |
| `BufferCache.Cache.Bread` | xv6/bio.c:96-106 | a buffer of that block with its cached contents, or those on disk if they were not cached; or a panic exactly if `bget` finds no buffer or the block must be read and is not on the disk |
| `BufferCache.Cache.Bwrite` | xv6/bio.c:109-116 | the buffer's contents are on disk and it is clean; or a panic, with the disk as before and the buffer marked dirty, exactly if its block is not on the disk |
| `BufferCache.Cache.Brelse` | xv6/bio.c:120-141 | dropping the last reference moves the buffer to the front of the ring |
| `BufferCache.UnlinkOk` | xv6/bio.c:132-133 | the two pointer updates take one buffer out of the doubly linked ring and keep the rest in order |
| `BufferCache.PushFrontOk` | xv6/bio.c:134-137 | the four pointer updates put it in front |
| `BufferCache.MoveToFront` | xv6/bio.c:126-138 | the ring stays sorted by the time of the last release |
| `BlockStore.StepKeepsInv` | xv6/bio.c:61-141 | every step of cache users and of a commit keeps the joint invariant of cache, log and disk |
| `BlockStore.RunKeepsInv` | xv6/bio.c:61-141 | so does every run |
| `BlockStore.BreadReturnsLatest` | xv6/bio.c:96-106 | in every run, whoever holds a block reads its latest contents |
| `BlockStore.OneBufferPerBlock` | xv6/bio.c:61-93 | in every run, at most one buffer holds a block |
| `BlockStore.UnwrittenIsCached` | xv6/bio.c:74-90 | in every run, contents the disk lacks are in a buffer that cannot be recycled |
| `BlockStore.CrashAnywhere` | xv6/log.c:115-233 | in runs in which the header has room for every block logged, a crash in any reachable state, with crashing recoveries, restores exactly the last committed contents: nothing uncommitted reaches a home block |
| `BlockStore.AppendHasRoom` | xv6/log.c:213-233 | the header has room for every block logged, in every run of the admission machine, for the sizes that `HeaderFits` gives |
| `BlockStore.DiskMeansCommitted` | xv6/log.c:177-202 | at every point of a commit the disk, as recovery reads it, is the committed contents |
| `BlockStore.CommitPoint` | xv6/log.c:192-202 | what recovery would read from the disk changes in no step but the header write, which turns it into the whole store |
| `BlockStore.OnlyModifyWrites` | xv6/log.c:213-233 | what a block outside the log holds changes only when a process writes into its buffer, and what is committed changes only at the header write |
| `BlockStore.GetIsBget` | xv6/bio.c:61-93 | the machine's `Get` step is exactly what `Bget` does to the buffers |
| `BlockStore.LoadReadsStore` | xv6/bio.c:96-106 | a block read from disk on a cache miss is the latest |
| `CommitBuffers.RunKeepsPinned` | xv6/bio.c:74-90 | in every run, each block of the log header is pinned in a buffer until it is installed |
| `CommitBuffers.PinnedCount` | xv6/bio.c:74-90 | in every run and at every point of a commit there are as many pinned buffers as header blocks that are not installed yet |
| `CommitBuffers.NoBuffersExactly` | xv6/bio.c:61-93 | in every run and at every point of a commit, `bget` panics exactly if the block is not cached and header blocks not yet installed and buffers in use fill the cache |
| `CommitBuffers.CommitPanicsExactly` | xv6/log.c:177-190 | with no buffer in use, at every point of a commit, there is no buffer for a log block exactly if the header has as many blocks left to install as there are buffers |
| `CommitBuffers.CommitCanPanic` | xv6/log.c:177-190 | a run that ends in that panic: all buffers but one hold logged blocks and a reader holds the last |
| `CommitBuffers.InstallCanPanic` | xv6/log.c:69-82 | a run that ends in that panic after the header write: a reader takes the last buffer before `install_trans` reads its first log block |
| `CommitBuffers.CommitAloneIsSafe` | xv6/log.c:177-202 | with no buffer in use and a log area no bigger than the cache it cannot happen, in either half of a commit |
| `ProcessTable.StepKeepsInv` | xv6/proc.c:180-500 | every step of scheduler, yield, sleep, wakeup, fork, exit, wait and kill keeps the invariant of the process table |
| `ProcessTable.RunKeepsInv` | xv6/proc.c:180-500 | so does every run with any number of processes and CPUs |
| `ProcessTable.RunningIsOnOneCpu` | xv6/proc.c:322-395 | with `ptable.lock` free, a process is RUNNING exactly if it is on some CPU, on one CPU only, and no zombie is on any |
| `ProcessTable.ReapedStackIsUnused` | xv6/proc.c:272-312 | `wait` never frees a kernel stack that a CPU is on |
| `ProcessTable.ParentsAreAlive` | xv6/proc.c:227-268 | no process has a zombie or unused parent |
| `ProcessTable.NoWaiterWithZombie` | xv6/proc.c:227-312 | no parent sleeps in `wait` while it has a zombie child |
| `ProcessTable.ScheduledHasStack` | xv6/proc.c:73-116 | the scheduler only runs processes with a kernel stack and a page table |
| `ProcessTable.ExitKeepsInv` | xv6/proc.c:227-268 | the exiting process becomes a zombie, its children go to init, and the family invariants hold; `ProcessLife.ExitMakesZombie` says it field by field |
| `ProcessTable.WaitReapKeepsInv` | xv6/proc.c:272-312 | freeing a zombie keeps them |
| `ProcessLife.ExitMakesZombie` | xv6/proc.c:250-265 | `exit` makes its caller ZOMBIE with the same pid, parent and memory, gives every child to init, wakes exactly who sleeps in `wait` for it or, if a child is a zombie, init, and changes nothing else |
| `ProcessLife.StateAfter` | xv6/proc.c:73-500 | the life cycle: for every step and every slot, the state after it, from UNUSED to EMBRYO, RUNNABLE, RUNNING, SLEEPING, ZOMBIE and back; no other step changes it |
| `ProcessLife.IdentityAfter` | xv6/proc.c:73-500 | for every step and every slot, pid, kill mark, kernel stack and page table after it |
| `ProcessLife.ParentAfter` | xv6/proc.c:180-312 | for every step and every slot, its parent: whoever forked it, then init if that process exits first, and nobody once it is collected |
| `ProcessLife.ChannelAfter` | xv6/proc.c:420-477 | only a process that runs changes what it sleeps on |
| `ProcessLife.SleepSleeps` | xv6/proc.c:420-455 | `sleep` puts its caller to sleep on the channel |
| `ProcessLife.WakeupWakes` | xv6/proc.c:460-477 | after a wakeup nobody sleeps on the channel; its sleepers are RUNNABLE and nobody else has changed |
| `ProcessLife.SleepsUntilWoken` | xv6/proc.c:420-500 | in every run, a sleeper sleeps on and is not scheduled up to a wakeup on its channel or a kill |
| `ProcessLife.ZombieStays` | xv6/proc.c:227-312 | in every run, a zombie stays one with the same pid and is never scheduled, up to the `wait` that collects it |
| `ProcessLife.ExitIsForGood` | xv6/proc.c:227-312 | in every run after `exit`, the process never runs again, and only its parent or init can collect it |
| `ProcessLife.ReapFrees` | xv6/proc.c:284-297 | `wait` leaves the zombie's slot unused, without pid, parent, kill mark, kernel stack and page table |
| `ProcCode.Ptable.WakeupChannel` | xv6/proc.c:460-468 | exactly the sleepers on the channel become RUNNABLE, and no other field of the table changes |
| `ProcCode.Ptable.AllocProc` | xv6/proc.c:73-92 | the first unused slot becomes an embryo with the next pid |
| `ProcCode.Ptable.Exit` | xv6/proc.c:250-265 | the caller is ZOMBIE with the same pid and parent; every child has init as its parent; exactly the sleepers on its parent, or on init if it leaves a zombie, become RUNNABLE; no other field changes |
| `ProcCode.Ptable.WaitScan` | xv6/proc.c:278-311 | finds a zombie child if there is one, frees its slot and returns its pid, and tells whether there are children |
| `ProcCode.Ptable.Kill` | xv6/proc.c:482-500 | the first process with the pid is marked, and RUNNABLE if it slept; the call fails and changes nothing if there is none |
| `ProcCode.Ptable.PickNext` | xv6/proc.c:335-344 | the scheduler's scan finds a runnable process or none exists |
| `SleepLock.StepKeepsInv` | xv6/sleeplock.c:22-53 | every step of `acquiresleep`, `releasesleep`, `sleep` and `wakeup`, between any two instructions of other processes, keeps the invariant |
| `SleepLock.RunKeepsInv` | xv6/sleeplock.c:22-53 | so does every run |
| `SleepLock.MutualExclusion` | xv6/sleeplock.c:22-42 | at most one process holds the sleep lock |
| `SleepLock.NoLostWakeup` | xv6/proc.c:420-477 | with the inner spinlock free, a process asleep on the lock sleeps because it is held |
| `SleepLock.AcquireReturns` | xv6/sleeplock.c:22-32 | a step inside `acquiresleep` stays inside it, or returns as the owner of a lock that was free |
| `SleepLock.AcquireEndsHolding` | xv6/sleeplock.c:22-32 | in every run, a process that has left `acquiresleep` has owned the lock on the way |
| `SleepLock.ReleaseReturns` | xv6/sleeplock.c:34-42 | a step inside `releasesleep` stays inside it up to its end, and clears `locked` and `pid` on the way |
| `SleepLock.SleeperWakes` | xv6/proc.c:460-500 | a sleeper wakes exactly when a release reaches its wakeup or it is killed |
| `SleepLock.HoldingSleepIsOwnership` | xv6/sleeplock.c:44-53 | `holdingsleep` answers whether the caller holds the lock |
| `SleepLock.EarlyReleaseLosesWakeup` | xv6/proc.c:420-455 | releasing `lk` before `ptable.lock` is taken would lose a wakeup |
| `DiskFormat.WordSetWord` | xv6/fs.c:388-398 | little-endian words read back, and their neighbours stay |
| `DiskFormat.BlockBitSet` | xv6/fs.c:62-69 | setting a bit of the free map changes that bit only |
| `DiskFormat.InodeRoundTrip` | xv6/fs.c:220-236 | an inode reads back from its block, and the other inodes of the block stay |
| `FileLayout.InodeOnDisk` | xv6/fs.h:28-42 | inode `i` is the 64 bytes at `64 * (i % 8)` of block `i / 8` of the inode area: type, major, minor and links in two bytes each, size and block addresses in four |
| `FileLayout.UsedOnDisk` | xv6/fs.h:44-48 | block `b` is in use exactly if bit `b % 8` of byte `b / 8` of the free map is set |
| `FileLayout.FileByteOnDisk` | xv6/fs.c:372-400 | byte `p` of a file is byte `p % 512` of the block whose number is in direct address `p / 512`, or in word `p / 512 - 12` of the indirect block |
| `FileLayout.OverwriteIs` | xv6/fs.c:481-511 | the bytes of an overwritten file: those written inside the range, the old ones outside it, and the longer of the two sizes |
| `FileLayout.OverwriteReadsBack` | xv6/fs.c:481-511 | reading the range back gives the bytes written |
| `FileLayer.SlotsAreDisjoint` | xv6/fs.c:372-400 | two slots of any files never name the same block |
| `FileLayer.AllocatedOwned` | xv6/fs.c:56-78 | `balloc` gives a block that nobody owns and keeps ownership |
| `FileLayer.AllocatedFiles` | xv6/fs.c:56-78 | `balloc` changes no file |
| `FileLayer.AssignedOwned` | xv6/fs.c:372-400 | recording a fresh block in a slot gives it to that slot |
| `FileLayer.PutInodeOwned` | xv6/fs.c:220-236 | `iupdate` moves no block and changes no file |
| `FileLayer.InodeAtPut` | xv6/fs.c:220-236 | `iupdate` makes the on-disk inode equal to the one in memory, and no other |
| `FileLayer.FinishedInodes` | xv6/fs.c:506-510 | after `writei` the on-disk inode equals the one in memory although `iupdate` runs only when the size grows |
| `FileLayer.FinishedNoHoles` | xv6/fs.c:481-511 | after `writei` exactly the blocks below the size are mapped |
| `FileLayer.WrittenContents` | xv6/fs.c:481-511 | the file is the old one with the bytes overwritten at the offset |
| `FileSpace.AllocatedCount` | xv6/fs.c:56-78 | `balloc` takes exactly one block from the free map |
| `FileSpace.CountIsZero` | xv6/fs.c:56-78 | the count of free blocks is 0 exactly if every bit of the free map is set |
| `FileSpace.DemandStep` | xv6/fs.c:498-504 | one round of `writei` needs exactly as many blocks as the file's demand grows by |
| `FileSpace.SortedStep` | xv6/fs.c:372-400 | what one round logs: its data block, one free map block per allocation, the indirect block |
| `FileSpace.ChunkFits` | xv6/file.c:127-133 | the blocks that a write of the size `filewrite` uses may log are at most MAXOPBLOCKS |
| `FileRecovery.CrashKeepsFiles` | xv6/log.c:115-233 | in every run whose commits find a consistent file system, however the calls before them interleave, a crash in any reachable state, with crashing recoveries, leaves a consistent file system with exactly the files of the last commit that wrote its header |
| `FileRecovery.RunKeepsFiles` | xv6/log.c:145-202 | in every such run the committed blocks hold those files |
| `FileRecovery.CrashKeepsCalls` | xv6/log.c:115-233 | in every run whose block changes are those of file system calls one after the other, a crash in any reachable state, with crashing recoveries, leaves a consistent file system; its files are those after the first calls, up to the last commit that wrote its header: no call in part, none out of order |
| `FileRecovery.RunKeepsCalls` | xv6/log.c:145-202 | in every such run the committed blocks hold those files |
| `FileRecovery.FormattedIsClean` | xv6/mkfs.c:93-103 | on every layout with room for the metadata there is a disk to start from: an empty log and empty files |
| `FileRecovery.ChangesOfWrites` | xv6/fs.c:388-398 | the block changes that the file layer makes are changes that the block store can make |
| `FileCalls.PerformsIf` | xv6/file.c:140-145 | the changes that lead from one consistent file system to another carry out a call if the files change as the call says; the blocks determine the files |
| `FileRecovery.FrameConsistent` | xv6/mkfs.c:93-103 | consistency and files do not depend on the blocks before the inode blocks, where the log is |
| `FileRecovery.WordOfBytes` | xv6/fs.c:388-398 | the file layer reads, byte by byte, the words that the log writes |
| `FileTruncate.FreedStep` | xv6/fs.c:412-428 | freeing one more slot of a file clears exactly that block's bit |
| `FileTruncate.StillUsed` | xv6/fs.c:80-95 | the block of each slot is marked in use when `itrunc` gets to it, so that `bfree` does not panic |
| `FileTruncate.TruncatedOwned` | xv6/fs.c:407-435 | after `itrunc` ownership holds without the file's blocks |
| `FileTruncate.TruncatedBits` | xv6/fs.c:407-435 | `itrunc` clears exactly the bits of the file's own blocks |
| `FileTruncate.TruncatedContents` | xv6/fs.c:407-435 | the file is empty and every other file is unchanged |
| `FileTruncate.TruncatedConsistent` | xv6/fs.c:407-435 | the file system stays consistent |
| `FileFormat.EmptyIsConsistent` | xv6/mkfs.c:237-251 | an empty file system is consistent, with exactly its metadata blocks in use |
| `FileCalls.OverflowExactly` | xv6/fs.c:464-467 | the test `off + n < off` detects exactly 32-bit overflow |
| `FileCalls.WriteCountIs` | xv6/fs.c:481-495 | `writei` returns -1 exactly if the offset is past the end of the file or the write ends past the longest file, and the number of bytes otherwise |
| `FileCode.FileSystem.constructor` | xv6/mkfs.c:237-251 | starts from an empty consistent file system |
| `FileCode.FileSystem.Balloc` | xv6/fs.c:56-78 | the first free block, marked and zeroed, or none exactly if all are in use |
| `FileCode.FileSystem.Bmap` | xv6/fs.c:372-400 | the block of file block `bn`: the same one if it is mapped, else a fresh one; no file changes; a panic exactly if `bn` is too big or fewer blocks are free than the block and its indirect block lack; exactly those blocks are taken, and every changed block is logged |
| `FileCode.FileSystem.Iupdate` | xv6/fs.c:220-236 | the on-disk inode becomes the one in memory, and its block is logged |
| `FileCode.FileSystem.Readi` | xv6/fs.c:452-476 | -1 exactly if the offset is past the end of the file or the range overflows; else the file's bytes from the offset to the end of the range or of the file, and their number; allocates nothing and writes nothing |
| `FileCode.FileSystem.Writei` | xv6/fs.c:481-511 | -1 exactly if the offset is past the end of the file or the write ends past the longest file, and then nothing changes; else it overwrites the file at the offset and keeps all other files, the kind of every inode and the invariant; a panic exactly if fewer blocks are free than the file lacks up to its new end, indirect block included, and else exactly those are taken; every changed block is logged, and a call with at most the size `filewrite` uses adds at most MAXOPBLOCKS blocks to the log |
| `FileCode.FileSystem.WriteThenRead` | xv6/fs.c:452-511 | a read of the range just written returns the bytes written, all of them |
| `FileCode.FileSystem.Bfree` | xv6/fs.c:80-95 | clears the bit and logs its block, and panics exactly if it was clear |
| `FileCode.FileSystem.FreeSlot` | xv6/fs.c:412-428 | frees the block of one slot; the panic of `bfree` is unreachable; only blocks of the free map change, and they are logged |
| `FileCode.FileSystem.Itrunc` | xv6/fs.c:407-435 | the file becomes empty with size and addresses zero, its blocks free, nothing else changes; every changed block is logged, and these are free map blocks and the inode's, at most MAXOPBLOCKS on disks of up to nine free map blocks |
| `FileCode.FileSystem.WriteCall` | xv6/file.c:140-145 | one transaction of `filewrite`: the blocks it changes, in order, carry out the write, all of them are logged, and at most MAXOPBLOCKS are for the sizes `filewrite` uses |
| `FileCode.FileSystem.TruncateCall` | xv6/fs.c:339-341 | the same for the truncation in `iput`, in a transaction of its own |
| `FileCode.FileSystem.Filewrite` | xv6/file.c:117-153 | the pieces together are one write of exactly the bytes that it accepts; it returns -1 unless these are all; a panic exactly if fewer blocks are free than they need; no transaction logs more than MAXOPBLOCKS blocks; the "short filewrite" panic is unreachable |
| `FileCode.AllOrNothing` | xv6/file.c:133-153 | exactly when it accepts all bytes or none |
| `FileCode.FailedWriteCanWrite` | xv6/file.c:133-153 | a call that returns -1 after it wrote a whole piece |
| `FileCode.OverwriteTwice` | xv6/file.c:135-151 | two writes in a row are one |
| `FileCode.DemandAdds` | xv6/file.c:135-151 | the blocks that two writes in a row need are those that one needs |
| `FreeList.InsertOrdered` | xv6/umalloc.c:24-44 | `free` keeps address order and merges: no two free blocks touch |
| `FreeList.InsertCovers` | xv6/umalloc.c:24-44 | `free` adds exactly the block's units to the list |
| `FreeList.TakeOrdered` | xv6/umalloc.c:63-90 | `malloc` keeps the list ordered and takes a block apart from it |
| `FreeList.TakeCovers` | xv6/umalloc.c:63-90 | the units of the list are split between the taken block and the rest |
| `FreeListLinks.InsertCircle` | xv6/umalloc.c:33-42 | the pointer updates of `free` in all four merging cases leave one circle through the new list |
| `FreeListLinks.TakeCircle` | xv6/umalloc.c:76-84 | so do those of `malloc`, and the returned header holds the size |
| `FreeListHeap.FreeHeap` | xv6/umalloc.c:24-44 | `free` keeps the heap invariant |
| `FreeListHeap.TakeHeap` | xv6/umalloc.c:63-90 | `malloc` keeps it |
| `FreeListHeap.GrowHeap` | xv6/umalloc.c:46-61 | memory from `sbrk` becomes a block that can be freed |
| `Umalloc.UnitOwnedOnce` | xv6/umalloc.c:24-90 | every unit from `sbrk` is in exactly one block, free or live |
| `Umalloc.FreeBlocksNeverTouch` | xv6/umalloc.c:24-90 | the list starts at `base` in address order, and no two free blocks are adjacent |
| `Umalloc.BetweenIsGap` | xv6/umalloc.c:30-32 | the exit test of the loop in `free` holds exactly at the block's place |
| `Umalloc.Allocator.FindGap` | xv6/umalloc.c:30-32 | the search loop of `free` ends, at the block's place |
| `Umalloc.Allocator.Free` | xv6/umalloc.c:24-44 | the block is no longer live, the list is the old one with it inserted and merged, and `freep` is the block before it |
| `Umalloc.Allocator.Morecore` | xv6/umalloc.c:46-61 | fails exactly if `sbrk` does; adds memory it did not get exactly if the argument of `sbrk` is not positive; else a big enough free block exists |
| `Umalloc.Allocator.Malloc` | xv6/umalloc.c:63-90 | a new live block of the wrapped number of units, cut from the end of the first block that fits, going around from `freep` (next fit); it holds the request exactly if the request is at most 2^32 - 8; 0 exactly if no free block fits and `sbrk` fails; a broken list exactly if none fits and the argument of `sbrk` is not positive; `sbrk` is asked at most once |
| `Umalloc.Allocator.Search` | xv6/umalloc.c:74-89 | the loop of `malloc` ends after one round, or two with one `morecore` between them |
| `Umalloc.UnitsCover` | xv6/umalloc.c:69-69 | the 32-bit number of units holds the request and its header exactly if the sum does not wrap, and then none is wasted |
| `Umalloc.SbrkIsAsked` | xv6/umalloc.c:46-56 | `sbrk` is asked for the memory that is used exactly if the request is at most 2^31 - 16 or wraps |
| `Umalloc.HugeRequestIsEmpty` | xv6/umalloc.c:69-69 | a request of 2^32 - 1 bytes asks for a header and nothing behind it |
| `Umalloc.BigRequestAsksForNothing` | xv6/umalloc.c:46-56 | a request of 2^32 - 8 bytes asks `sbrk` for nothing |
| `PageTables.NewTable` | xv6/vm.c:44-52 | hooking up an empty table keeps directories, tables, mappings and frames consistent |
| `PageTables.NewTableView` | xv6/vm.c:44-52 | and changes no page |
| `PageTables.SetEntryView` | xv6/vm.c:73-73 | writing a table entry changes exactly one page of one address space |
| `PageTables.SetEntry` | xv6/vm.c:60-80 | mapping, unmapping and changing flags keep the consistency |
| `PageTables.LetGo` | xv6/vm.c:283-298 | so does freeing a table of a dying directory, or the directory when no table is left |
| `FrameList.Pop` | xv6/kalloc.c:82-95 | `kalloc` takes a free frame, and fails exactly if there is none |
| `FrameList.Push` | xv6/kalloc.c:59-77 | `kfree` of a frame that nothing refers to; its panic is unreachable |
| `FrameList.JunkIs` | xv6/kalloc.c:67-73 | a freed frame is all ones but for the link in its first word |
| `FrameList.SoundUnmap` | xv6/vm.c:269-276 | freeing a page's frame and then clearing its entry keeps the machine invariant |
| `FrameList.UserFramesAreNotShared` | xv6/vm.c:221-345 | no frame is mapped by two user pages, in one address space or two |
| `FrameList.TablesAreNotShared` | xv6/vm.c:35-55 | a table belongs to one directory entry and is neither free nor a user page |
| `FrameList.FreeFramesAreUnused` | xv6/kalloc.c:59-95 | the free list is linked in order without repetition, and no user page maps a free frame |
| `VmSpec.MappedOneMore` | xv6/vm.c:68-78 | one turn of the loop of `mappages` maps exactly the next page |
| `VmSpec.RemovedOneMore` | xv6/vm.c:269-276 | one turn of the loop of `deallocuvm` removes exactly the next mapped page |
| `VmSpec.NoTableUnmapped` | xv6/vm.c:266-268 | the skip over a missing table passes unmapped pages only, and moves forward |
| `VmSpec.RemovedPass` | xv6/vm.c:265-277 | passing unmapped pages is removing them |
| `VmGrow.GrownOneMore` | xv6/vm.c:233-246 | one turn of the loop of `allocuvm` adds exactly one fresh zeroed page |
| `VmGrow.GrownThenRemoved` | xv6/vm.c:235-239 | `deallocuvm` takes back exactly what a failed `allocuvm` added |
| `VmGrow.PageUndone` | xv6/vm.c:241-246 | also when the last frame could not be mapped |
| `VmSpace.FreedAll` | xv6/vm.c:283-298 | taking an address space apart frees its directory, tables and pages and no other frame |
| `VmSpace.BuiltThenFreed` | xv6/vm.c:128-134 | abandoning a half-built address space restores the role of every frame |
| `VmSpace.KernelMapOk` | xv6/vm.c:105-115 | the rows of `kmap` are aligned, disjoint, above KERNBASE and do not wrap, for every place of `data` |
| `VmSpace.KernelMapIs` | xv6/vm.c:105-115 | for every page: the table maps it exactly if it is in KERNBASE to KERNBASE+PHYSTOP or from DEVSPACE on; to the frame KERNBASE below it, or to itself from DEVSPACE on; never for the user; writable exactly outside KERNLINK to `data` |
| `VmSpace.KernelViewHit` | xv6/vm.c:105-136 | each row is mapped as it says, whatever the order of rows |
| `VmSpace.KernelViewUser` | xv6/vm.c:105-136 | the kernel's table maps no user page |
| `VmSpace.RowMapped` | xv6/vm.c:128-131 | mapping one more row of `kmap` |
| `VmSpace.CopiedOneMore` | xv6/vm.c:325-338 | one turn of the loop of `copyuvm` copies exactly one page, contents and flags |
| `VmCount.DrewThen` | xv6/vm.c:35-80 | the frames that two steps take for tables and pages add up to what both take together |
| `VmCount.DrewDry` | xv6/vm.c:60-80 | a `mappages` that stops on an empty free list had fewer frames than the tables it lacked |
| `VmCount.StretchFails` | xv6/vm.c:233-246 | a page loop that stops had fewer frames than its pages and their missing tables |
| `VmCount.LowLacking` | xv6/vm.c:325-338 | the user half of a new address space lacks one table per 1024 pages |
| `VmCount.KernelTables` | xv6/vm.c:105-136 | the rows of `kmap` reach exactly 64 directory entries, for every place of `data` |
| `VmCode.WithoutUParts` | xv6/vm.c:310-310 | clearing the user bit keeps frame and present bit |
| `VmCode.WithoutUBits` | xv6/vm.c:310-310 | the user bit is clear and every other bit is as before |
| `VmCode.Kernel.constructor` | xv6/kalloc.c:31-44 | before `kinit1` the free list is empty |
| `VmCode.Kernel.Kalloc` | xv6/kalloc.c:82-95 | the head of the free list, or 0 exactly if it is empty |
| `VmCode.Kernel.Kfree` | xv6/kalloc.c:59-77 | the frame is filled, linked and free |
| `VmCode.Kernel.Freerange` | xv6/kalloc.c:46-53 | exactly the whole pages in the range become free |
| `VmCode.Kernel.Walk` | xv6/vm.c:35-55 | the table of an entry, made if asked; no page and no data changes; fails exactly if there is no table and none may or can be made; takes exactly one frame for a new table |
| `VmCode.Kernel.Mappages` | xv6/vm.c:60-80 | maps the pages in order up to the first that was mapped before, where it panics, and all of them if there is none; it fails exactly if the free frames do not cover the tables missing on the way, of which it takes one each |
| `VmCode.LeadingIs` | xv6/vm.c:68-78 | the pages before the first mapped one are unmapped, and that one is mapped |
| `VmCode.Kernel.Deallocuvm` | xv6/vm.c:255-279 | exactly the mapped pages between the sizes are unmapped and their frames freed |
| `VmCode.Kernel.Allocuvm` | xv6/vm.c:221-249 | with enough free frames for the pages between the sizes and the tables they lack, exactly those pages are new, zeroed, in frames that were free; with fewer it fails and the mapping is as before |
| `VmCode.Kernel.Freevm` | xv6/vm.c:283-298 | exactly the frames of the address space become free, each once; other address spaces and data stay |
| `VmCode.Kernel.Setupkvm` | xv6/vm.c:118-136 | a new directory in which every page is mapped as `KernelMapIs` says, frame and permissions included; or 0 with every frame, page and datum as before, exactly if fewer than 65 frames are free |
| `VmCode.Kernel.Clearpteu` | xv6/vm.c:302-311 | one page loses its user bit and nothing else changes |
| `VmCode.Kernel.Copyuvm` | xv6/vm.c:315-345 | the pages below `sz` are copied into frames that were free with the same flags, every page from `sz` on is mapped as `KernelMapIs` says, the parent stays; or 0 with everything as before, exactly if fewer frames are free than 65, one per page and one per 1024 pages |
| `ShellLex.LexSpell` | xv6/sh.c:265-308 | the tokens of printed tokens are those tokens |
| `ShellLex.Classes` | xv6/sh.c:262-263 | white space and symbols are the characters of the two strings, and no character is both |
| `ShellDerive.ParseIsGrammar` | xv6/sh.c:327-446 | the shell accepts a line exactly if the grammar derives its tokens, and returns what the derivation means: words in order, redirections from the inside out, pipes and lists to the right, `&` around what is before it |
| `ShellDerive.LineParsed` | xv6/sh.c:344-359 | every derivation is parsed to its meaning, with what follows left over |
| `ShellDerive.LineSound` | xv6/sh.c:344-446 | whatever the parser accepts has a derivation with that meaning |
| `ShellDerive.Unambiguous` | xv6/sh.c:344-446 | no line has two meanings |
| `ShellDerive.OperatorMeans` | xv6/sh.c:384-394 | `<` opens descriptor 0 with mode 0; `>` and `>>` open descriptor 1 with mode O_WRONLY and O_CREATE |
| `ShellDerive.RedirAnywhere` | xv6/sh.c:415-446 | a redirection before, between or after up to nine words means the same: the words in order, and that file with the mode and descriptor of its operator |
| `ShellDerive.TenthWord` | xv6/sh.c:437-438 | a tenth word is the panic for too many arguments |
| `ShellDerive.ParenAfterWord` | xv6/sh.c:432-433 | a parenthesis after words is a syntax error |
| `ShellDerive.NoFile` | xv6/sh.c:381-383 | a line that starts with a redirection operator and no word after it is the panic for a missing file |
| `ShellDerive.Parens` | xv6/sh.c:327-413 | a derivation after `(` that ends the line is the panic for a missing `)`, and one before `)` is the panic for leftovers |
| `ShellShow.RoundTrip` | xv6/sh.c:327-446 | for every printable tree, parsing its canonical text gives the tree |
| `ShellShow.ParsePrintParse` | xv6/sh.c:327-446 | every accepted line parses to a printable tree, whose canonical text parses to the same tree |
| `ShellShow.CommandShow` | xv6/sh.c:399-446 | `parseexec` and `parseblock` undo printing, with what follows left over |
| `ShellShow.PipelineShow` | xv6/sh.c:361-372 | `parsepipe` undoes printing |
| `ShellShow.LineShow` | xv6/sh.c:344-359 | `parseline` undoes printing |
| `ShellShow.RedirsShow` | xv6/sh.c:374-397 | `parseredirs` undoes printing |
| `ShellShow.LinePrintable` | xv6/sh.c:344-446 | whatever the parser accepts can be printed: at most nine words, whole words, known modes |
| `ShellCode.Parser.GetToken` | xv6/sh.c:265-308 | consumes exactly the next token; a word is a maximal run of word characters |
| `ShellCode.Parser.Peek` | xv6/sh.c:310-320 | looks at the next token and consumes only white space |
| `ShellCode.Parser.ParseRedirs` | xv6/sh.c:374-397 | consumes a run of redirections and wraps the command in them in order, `<` with mode 0 and descriptor 0, `>` and `>>` with mode 0x201 and descriptor 1; agrees with the grammar, errors included |
| `ShellCode.Parser.ParseExec` | xv6/sh.c:415-446 | agrees with the grammar, errors included |
| `ShellCode.Parser.ParseArgs` | xv6/sh.c:429-442 | the loop over words agrees with the grammar, and `argc` stays below MAXARGS |
| `ShellCode.Parser.ParseBlock` | xv6/sh.c:399-413 | agrees with the grammar, errors included |
| `ShellCode.Parser.ParsePipe` | xv6/sh.c:361-372 | agrees with the grammar, errors included |
| `ShellCode.Parser.ParseLine` | xv6/sh.c:344-359 | agrees with the grammar, errors included; the mutual recursion ends |
| `ShellCode.Parser.ParseAll` | xv6/sh.c:327-339 | accepts exactly when the whole line is a command |
| `ShellTerminate.EndsAreOutside` | xv6/sh.c:449-493 | every NUL that `nulterminate` writes is outside every word |
| `ShellTerminate.TerminationIsHarmless` | xv6/sh.c:449-493 | afterwards every argument and file name read as a C string is exactly its token |
| `ShellTerminate.Nulterminate` | xv6/sh.c:449-493 | writes NULs at the ends of the words and nothing else |
| `ShellTerminate.ParseCmd` | xv6/sh.c:327-342 | accepts exactly the lines that the grammar derives; the commands that will run, read from the buffer as C strings, are what the derivation of the line that was there means |
| `SecondChance.SpareHead` | w11/clock-example.c:82-85 | on every queue, passing a referenced page is moving it from head to tail with its bit cleared: the queue and the page table after the replacement do not change |
| `SecondChance.TakeHead` | w11/clock-example.c:72-79 | an unreferenced head is the victim: it leaves encrypted and the new page comes last |
| `SecondChance.ClearedAt` | w11/clock-example.c:82-85 | exactly the passed pages lose their reference bits |
| `SecondChance.ReplacedReference` | w11/clock-example.c:72-89 | a replacement clears the reference bits of the pages it spares and no other |
| `SecondChance.ManagedInserted` | w11/clock-example.c:66-70 | inserting into an empty slot keeps: present exactly if not encrypted and in the ring |
| `SecondChance.ManagedReplaced` | w11/clock-example.c:72-89 | so does replacing: the victim is encrypted, the new page present |
| `SecondChance.ManagedRemoved` | w11/clock-example.c:95-128 | a removed page leaves the ring and stays present |
| `SecondChance.ManagedAtStart` | w11/clock-example.c:193-203 | it holds before the first reference |
| `ClockRing.Clock.constructor` | w11/clock-example.c:131-137 | an empty ring |
| `ClockRing.Clock.Insert` | w11/clock-example.c:59-90 | an empty slot is always just after the hand, so that eviction happens only in a full ring; then exactly second-chance replacement; at most CLOCKSIZE+1 moves of the hand |
| `ClockRing.Clock.Sweep` | w11/clock-example.c:62-86 | the loop ends at an empty slot or the second-chance victim |
| `ClockRing.Clock.Remove` | w11/clock-example.c:95-128 | exactly that page leaves and the others keep their order; an absent page changes nothing; reads outside the array exactly if the hand has not moved and there is more than one slot |
| `ClockRing.Clock.Shift` | w11/clock-example.c:113-121 | the loop moves the younger pages back by one slot around the array's end |
| `ClockRing.SearchStaysInside` | w11/clock-example.c:99-106 | the indices of the search are inside the array exactly if the hand has moved or there is one slot |
| `ClockRing.Clock.DoRefPage` | w11/clock-example.c:161-173 | the page is then present and referenced; the queue changes only on a fault |
| `ClockRing.Clock.DoRemovePage` | w11/clock-example.c:177-182 | the page leaves the ring and stays present; false as for `Remove` |
| `PipeRing.PipeIsFifo` | xv6/pipe.c:78-121 | for any interleaving the bytes read are a prefix of the bytes stored, and the 32-bit difference of the counters is the number of unread bytes, at most the ring's size |
| `PipeRing.NewPipeIsFifo` | xv6/pipe.c:22-57 | a new pipe has stored and delivered nothing |
| `PipeRing.WriteStream` | xv6/pipe.c:78-98 | a write stores as many bytes as fit, in order, and completes, fails or sleeps accordingly |
| `PipeRing.ReadStream` | xv6/pipe.c:100-121 | a read fails or sleeps, killed or not, exactly if nothing is unread and the write end is open; else it takes the oldest unread bytes, as many as are there and asked for; only a sleep adds a reader, and only a read that takes bytes or sees the end wakes the writers |
| `PipeRing.CloseShuts` | xv6/pipe.c:59-75 | a close shuts the end it names and no other, wakes who sleeps at the other end, and keeps the bytes |
| `PipeRing.EndsStayShut` | xv6/pipe.c:59-75 | in every run, an end is open exactly until somebody closes it |
| `PipeRing.EndOfFile` | xv6/pipe.c:100-121 | in every run, after the write end is closed a reader gets what is left, then nothing, and never sleeps |
| `PipeRing.BrokenPipe` | xv6/pipe.c:78-98 | in every run, after the read end is closed a write completes exactly if its bytes fit, else fails, and never sleeps |
| `PipeRing.WriteFlags` | xv6/pipe.c:78-98 | a write wakes the readers unless it fails, adds a writer exactly if it sleeps, and leaves the ends as they are |
| `PipeRing.CountsAreTrue` | xv6/pipe.c:85-106 | the tests for full and empty are right through wrap-around |
| `PipeRing.WrappedIndex` | xv6/pipe.c:93-93 | indexing by a wrapped counter is indexing by the true count, because the size divides 2^32 |
| `PipeRing.PipeSizeOk` | xv6/pipe.c:11-11 | PIPESIZE divides 2^32 |
| `PipeRing.WriteWakesReaders` | xv6/pipe.c:84-97 | exactly when a write leaves a reader asleep beside unread bytes |
| `PipeRing.ReaderCanMissAWakeup` | xv6/pipe.c:85-89 | on a new pipe, a reader that sleeps and a writer that is killed with the ring full leave the reader asleep beside PIPESIZE unread bytes |
| `PipeRing.WritersNeverMissAWakeup` | xv6/pipe.c:59-121 | in every run, writers sleep only while the ring is full and the read end open |
| `PipeRing.ReadKeepsReaders` | xv6/pipe.c:100-121 | reads never leave readers asleep beside bytes |
| `PipeCode.PipeBuffer.Pipewrite` | xv6/pipe.c:78-98 | the code stores as many bytes as fit, in order, and completes, fails or sleeps accordingly; it wakes the readers unless it fails |
| `PipeCode.PipeBuffer.Piperead` | xv6/pipe.c:100-121 | the code fails if killed or sleeps exactly if nothing is unread and the write end is open, and otherwise takes the oldest unread bytes and wakes the writers |
| `PipeCode.PipeBuffer.Pipeclose` | xv6/pipe.c:59-75 | shuts the end it names and no other, and wakes the other side |
| `Regex.Metacharacters` | xv6/grep.c:84-106 | a `*` after any character, a `.` and a final `$` are the only metacharacters of a pattern without `^`; every other character stands for itself |
| `Regex.MatchHereIsLanguage` | xv6/grep.c:84-96 | `matchhere` accepts exactly if a prefix of the text is made of one piece per item of the pattern, and all of it under `$` |
| `Regex.MatchStarIsLanguage` | xv6/grep.c:98-106 | so does `matchstar` for `c*` followed by a pattern |
| `Regex.StarTakesAnyNumber` | xv6/grep.c:98-106 | greediness does not matter: some number of repetitions lets the rest match |
| `Regex.MatchAnywhereIsLanguage` | xv6/grep.c:72-82 | trying every position finds a match exactly if there is one |
| `Regex.Match` | xv6/grep.c:72-82 | `match` returns 1 exactly if the text contains a match, at its start under `^` |
| `Regex.Matchhere` | xv6/grep.c:84-96 | the code is the recursive matcher |
| `Regex.Matchstar` | xv6/grep.c:98-106 | the loop is the recursive matcher |

## Left out

- `initlog` and more than one device: the log's place and size are parameters.
- Hardware: interrupts, trap frames, context-switch assembly, segment registers, TLBs, real IDE disks; a block write is atomic.
- Fairness and progress of the scheduler: only safety is stated.
- `userinit`, `growproc`, `exec` and `procdump`; in `ProcessTable` the memory of a process is a pair of flags (kernel stack, page table).
- Directories, path names, the inode cache with its reference counts, `ialloc`, devices and `stati` in `xv6/fs.c`; the in-memory inodes are an array.
- FileRecovery.CrashKeepsCalls: is stated for calls that run one after the other; calls of different processes inside one transaction, which the inode and buffer locks keep apart, are covered by `CrashKeepsFiles` under the condition that they leave a consistent file system when the commit starts.
- Log budgets of the other system calls: those of `filewrite` and of the truncation in `iput` are derived; `LogAdmission` takes the budget as a parameter.
- FileCode.FileSystem.Writei: says nothing about the disk after a panic in `balloc`, because the kernel stops there.
- FileCode.FileSystem.Bmap: says nothing about the disk after a panic in `balloc`, because the kernel stops there.
- FileCode.FileSystem.WriteCall: says nothing about the disk after a panic in `balloc`, because the kernel stops there.
- FileCode.FileSystem.Filewrite: says nothing about the disk after a panic in `balloc`, because the kernel stops there.
- `inituvm`, `loaduvm`, `uva2ka`, `copyout`, `switchuvm`: they add no new frame or mapping discipline.
- VmCode.Kernel.Deallocuvm: is stated for sizes up to KERNBASE, which every caller respects; the skip over a missing table wraps to address 0 in the last directory entry.
- VmCode.Kernel.Mappages: is stated for ranges that do not wrap.
- In `ShellCode` commands are values: that an `execcmd` is filled after redirections already point to it is modelled by rebuilding the chain around it.
- `runcmd` and `getcmd` of the shell, and `malloc` failure in its constructors.
- The contents of encrypted pages, which the example does not model either.
- Umalloc.Allocator.Malloc: says nothing about a free list with memory that `sbrk` did not give; addresses are counted in headers.
- The `grep` driver with its line buffer.
- Sleeping processes in `PipeRing` are two flags, one per side; which of several sleepers runs first is not modelled.
