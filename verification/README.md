# Extended xv6 in Dafny

A model of the parts of an extended xv6 kernel that are hard to get right, with proofs about every
run or every input: the crash-safe file system stack (write-ahead log, buffer cache, block trees up
to triple indirect blocks, file bytes), sleep-locks, the MLFQ and stride scheduler with its CPU
shares and threads, two-level page tables, and three algorithms of the user programs (the K&R
allocator, the shell parser, the regular expression matcher).

`dafny verify dfyconfig.toml` checks the whole project. Each module is in the file of its name.

| modules | what they model |
|---|---|
| Blocks | 512-byte blocks and the little-endian words in them |
| LogDisk, LogMachine, LogBudget, Log | the redo log on disk and after every single write; the protocol of any number of operations, commits, crashes and recoveries; when log_write panics; the code of log.c |
| Bio, BioRun, CommitBuffers | the buffer cache on its doubly linked list; its runs against a flat disk; the buffers a commit needs |
| Bitmap, Inodes, Tree, TreeFree, TreeLog, ChunkLog, TruncateLog, Fs | the free map, inodes in their blocks, the block trees of all inodes, what truncation frees, what writes and truncations log, and the code of balloc, bfree, bmap, iupdate and itrunc |
| FileSpec, FileIo, FileOps | flat byte-array files, and the code of readi, writei, pwritei, filewrite and filepwrite against them |
| CrashFiles | the files on a disk that crashes: chunks of filewrite on top of the log, and what stays once it is committed |
| SleepLock | acquiresleep, releasesleep, sleep and wakeup as interleaved steps |
| Stride | stride selection and charging |
| ProcStates, MlfqQueue, SchedTable, SchedShares, ShareLaw, SchedLife, SchedRuns, SchedLevels, SchedSteps, SchedStride, Sched | the queue arrays, the process table as a value, CPU shares and what a request does to the queues, the life of processes and threads, whole runs, what each step changes, the shares as stride selection reads them, and the code of the queue operations, set_cpu_share, killzombie and wait |
| PageTable, Vm | page directories as flat page maps with an owner for every frame, and the code of vm.c |
| FreeList, Arena, Umalloc | the allocator's free list, the partition of memory, and the code of umalloc.c |
| ShTokens, ShGrammar, Sh, ShNul | tokens and their texts, the grammar and the ways of writing a command, the parser's code, and in-place NUL termination |
| Grep | patterns, their texts and denotation, and the matcher |

Code that updates fields, arrays or loop variables is a class or a method whose `ensures` ties the new
state to a function of the old one; the laws are lemmas about those functions and about runs. Kernel
panics are outcomes (`OutOfBlocks`, `FreeingFree`, `Panicked`, a `panic` or `ok` result), so that "never
panics" is something that is proved.

What the proofs show about the code as it stands:

- `log_write` tests the size of the transaction before it looks for the block in it, and against
  `log.size - 1`. With `log.size > LOGSIZE` an operation that logs at most MAXOPBLOCKS distinct blocks
  panics exactly when the transaction is full, and then on a block it has logged before. A panic on a
  block that is already listed is reachable in every log that can hold a block; one on a new block
  exactly when `log.size <= LOGSIZE`, and `mkfs.c` lays out `nlog = LOGSIZE` blocks.
- A larger log does not help: with `log.size > LOGSIZE` a commit of LOGSIZE blocks can come about, and
  as LOGSIZE equals NBUF, all buffers are then pinned and the first bread of write_log panics.
- One truncation can log eleven distinct blocks on a disk of 40000 blocks, one more than MAXOPBLOCKS.
- `filepwrite` never advances its offset between chunks, so it writes what was asked for exactly when
  `n <= 1536`.
- `catchupoffset` does not return when a pwrite starts beyond the largest file: it fills the disk and
  panics in balloc, or, on a disk with room for MAXFILE data blocks, in bmap.
- `set_cpu_share` accepts negative requests. The 20% floor holds in every run of non-negative requests,
  and gives way exactly when a process with a sufficiently negative share is reaped, which every
  negative request can bring about.
- `copyuvm` loses the frame it has just copied when `mappages` fails: exactly when, with k kernel page
  tables, k + 2 + v + v / 1024 frames are free for some copied page v that is a multiple of 1024.
- `malloc` returns a block that is too small exactly when `nbytes + 7` wraps around 32 bits.
- The shell's parser treats `>>` as `>`.

## Model

| member | source | states |
|---|---|---|
| LogDisk.HeaderRoundTrip | proj_FileSystem/xv6-public/log.c:84-113 | Reading back a header block that write_head filled gives the same list of block numbers, for every list of at most LOGSIZE numbers. |
| LogDisk.LogPass | proj_FileSystem/xv6-public/log.c:176-190 | After any number of write_log's writes the home blocks are untouched and the log holds exactly that many images. |
| LogDisk.InstallPass | proj_FileSystem/xv6-public/log.c:68-82 | After any number of install_trans's copies, exactly those home blocks hold their images and the log area is unchanged. |
| LogDisk.CommitPrefix | proj_FileSystem/xv6-public/log.c:192-202 | A commit cut after any single disk write leaves a disk that stands for the old blocks up to the header write and for the new ones from it on. |
| LogDisk.RecoverPrefix | proj_FileSystem/xv6-public/log.c:115-122 | Recovery cut after any single disk write leaves a disk that still stands for the same blocks. |
| LogDisk.RebootKeepsMeaning | proj_FileSystem/xv6-public/log.c:115-122 | Any number of interrupted recoveries followed by a complete one ends with a cleared header and home blocks equal to what the crashed disk stood for. |
| LogDisk.CommitIsAtomic | proj_FileSystem/xv6-public/log.c:68-202 | Crash atomicity: cut commit after any write, crash any number of times in recovery; the home blocks are all old or all new, all new exactly when the header write reached the disk, and no other block changes. |
| LogMachine.StepSimulates | proj_FileSystem/xv6-public/log.c:125-233 | Every step of the log (begin_op, log_write, end_op, each single commit write, crash, each single recovery write) keeps the invariant and is a step, or no step, of an atomic disk, however often an operation calls log_write. |
| LogMachine.RunRefinesAtomicDisk | proj_FileSystem/xv6-public/log.c:125-233 | Over every run with any number of concurrent operations, crashes and recoveries, the log behaves as a disk with a volatile and a durable image whose only durable change is one flush. |
| LogMachine.CrashLandsOnQuietMoment | proj_FileSystem/xv6-public/log.c:143-174 | Whenever the machine stops, what recovery yields is the blocks as seen at some earlier moment with no operation in progress, and not before the end of any commit that had finished by then. |
| LogMachine.CommittedIsDurable | proj_FileSystem/xv6-public/log.c:143-202 | When a commit has finished, what survives a crash is what readers see. |
| LogMachine.CommitExcludesOps | proj_FileSystem/xv6-public/log.c:125-174 | In every run a commit or a recovery never overlaps an open operation, and lh.block stays free of repetitions and within LOGSIZE. |
| LogBudget.RunReserves | proj_FileSystem/xv6-public/log.c:125-141 | In every run whose operations log at most MAXOPBLOCKS distinct blocks each, the transaction and what begin_op still reserves for the open operations fit in LOGSIZE together. |
| LogBudget.PanicsExactly | proj_FileSystem/xv6-public/log.c:213-233 | In every such run, with log.size > LOGSIZE, an operation within its budget panics in log_write exactly when the transaction holds LOGSIZE blocks, and then the block is one its own operation has logged before and every open operation has used up its budget. |
| LogBudget.LogWriteNeverPanics | proj_FileSystem/xv6-public/log.c:213-233 | With log.size > LOGSIZE, no interleaving brings an operation that has logged fewer than MAXOPBLOCKS distinct blocks to the panic. |
| LogBudget.NewBlockPanicIff | proj_FileSystem/xv6-public/log.c:218-219 | The panic is reachable on a block that is new to the transaction exactly when log.size <= LOGSIZE, which is the size mkfs.c:25 lays out; the witness run is given. |
| LogBudget.RepeatedBlockPanicIff | proj_FileSystem/xv6-public/log.c:218-228 | Because the size test precedes the search for the block, the panic is reachable on a block that is already listed in every log with log.size >= 2, however large; the witness run is given. |
| LogBudget.CallPanicIff | proj_FileSystem/xv6-public/log.c:213-233 | For operations that make at most MAXOPBLOCKS calls, repeated blocks counted again, the panic is reachable exactly when log.size <= LOGSIZE. |
| LogBudget.FullCommitIff | proj_FileSystem/xv6-public/log.c:125-174 | A commit of LOGSIZE blocks can come about within the operations' budgets exactly when log.size > LOGSIZE; the run is given. |
| Log.Log.WriteLog | proj_FileSystem/xv6-public/log.c:176-190 | The loop performs exactly the log-area writes of the specification, in order. |
| Log.Log.WriteHead | proj_FileSystem/xv6-public/log.c:98-113 | One block write, of the header that lists the transaction. |
| Log.Log.ReadHead | proj_FileSystem/xv6-public/log.c:84-96 | The in-memory header becomes the list on disk. |
| Log.Log.InstallTrans | proj_FileSystem/xv6-public/log.c:68-82 | The loop performs exactly the install writes, in order, and unpins the blocks. |
| Log.Log.Commit | proj_FileSystem/xv6-public/log.c:192-202 | The disk writes are exactly the commit sequence of which every prefix is proved atomic; an empty transaction writes nothing. |
| Log.Log.RecoverFromLog | proj_FileSystem/xv6-public/log.c:115-122 | The disk writes are exactly the recovery sequence of which every prefix keeps the meaning of the disk. |
| Log.Log.BeginOp | proj_FileSystem/xv6-public/log.c:125-141 | One pass of the admission loop: admitted exactly when no commit runs and the log has room for one more full operation. |
| Log.Log.EndOp | proj_FileSystem/xv6-public/log.c:143-174 | The last operation out commits its transaction and clears it; any other leaves log and disk alone; panics exactly if a commit is in progress. |
| Log.Log.LogWrite | proj_FileSystem/xv6-public/log.c:213-233 | Absorption: a block already listed is not listed again, a new one is appended, the buffer is pinned; panics exactly when the log is full or no operation is open. |
| Bitmap.SetBit | proj_FileSystem/xv6-public/fs.c:66-72 | Setting bit k of a byte changes bit k and no other, and stays within a byte. |
| Bitmap.ClearBit | proj_FileSystem/xv6-public/fs.c:91-94 | Clearing bit k of a byte changes bit k and no other. |
| Bitmap.MarkIsUsed | proj_FileSystem/xv6-public/fs.c:66-72 | Marking a block adds exactly that block to the set of used blocks. |
| Bitmap.UnmarkIsFree | proj_FileSystem/xv6-public/fs.c:88-95 | Clearing a block's bit removes exactly that block from the set of used blocks. |
| Tree.PathOfInjective | proj_FileSystem/xv6-public/fs.c:373-461 | bmap's walk is one-to-one: distinct file blocks of any inodes lie at distinct pointer positions. |
| Tree.PathOfOnto | proj_FileSystem/xv6-public/fs.c:373-461 | It is onto: every data position below a direct, single, double or triple indirect slot is reached by some file block below MAXFILE. |
| Tree.AttachedPtr | proj_FileSystem/xv6-public/fs.c:381-456 | Hanging a fresh zeroed block into the tree changes one pointer position and no other, at any level of any inode. |
| Tree.AttachedWF | proj_FileSystem/xv6-public/fs.c:381-456 | It keeps all pointers of all inodes at all four levels pairwise distinct, inside the data area and marked in the bitmap. |
| Tree.AttachedBytes | proj_FileSystem/xv6-public/fs.c:381-456 | It changes no byte of any file. |
| Tree.WrittenPtr | proj_FileSystem/xv6-public/fs.c:605-611 | Overwriting file data never changes a pointer of the tree. |
| Tree.WrittenBytes | proj_FileSystem/xv6-public/fs.c:605-611 | Overwriting one data block changes the bytes of that block of that file only. |
| Tree.GrownAttach | proj_FileSystem/xv6-public/fs.c:381-456 | Several such steps along one path compose to a growth that changes no other mapping. |
| TreeFree.UnderDisjoint | proj_FileSystem/xv6-public/fs.c:468-542 | The blocks below two positions of any depth, neither above the other, are disjoint, so nothing can be freed twice. |
| TreeFree.FileBlocks | proj_FileSystem/xv6-public/fs.c:468-542 | Every block that any position of the file points to belongs to the set itrunc frees. |
| TreeFree.TruncatedWF | proj_FileSystem/xv6-public/fs.c:468-542 | After a truncation the trees of all inodes are well-formed again. |
| TreeFree.TruncatedBytes | proj_FileSystem/xv6-public/fs.c:468-542 | The truncated file has no bytes left, every other file keeps all of its bytes. |
| TreeLog.LogsMore | proj_FileSystem/xv6-public/fs.c:380-456 | Every block logged on the way to a file block is a bitmap block, a missing block, or the index block of a missing one. |
| ChunkLog.UpInWindow | proj_FileSystem/xv6-public/fs.c:373-461 | Of four consecutive file blocks, each lies below the same last index block as the first or the last of them. |
| ChunkLog.MissingIndexStarts | proj_FileSystem/xv6-public/fs.c:373-461 | If all earlier blocks are mapped, a missing index block above a file block begins at that block. |
| ChunkLog.DirtyIsCandidate | proj_FileSystem/xv6-public/fs.c:373-461 | Whatever boundary between direct, single, double and triple blocks a chunk crosses, every position whose block is logged is one of eight. |
| ChunkLog.AtMostNine | proj_FileSystem/xv6-public/file.c:140-165 | Hence a chunk and its inode block log at most nine distinct blocks besides bitmap blocks. |
| Inodes.DinodeOfPut | proj_FileSystem/xv6-public/fs.h:30-45 | An inode stored at one of the eight places of an inode block reads back word for word, and the other seven keep theirs. |
| Inodes.DinodeAtWith | proj_FileSystem/xv6-public/fs.c:218-237 | Storing inode ip in its block changes exactly inode ip among all inodes on disk. |
| Fs.FileSystem.Iupdate | proj_FileSystem/xv6-public/fs.c:218-237 | The inode block on disk holds the in-memory inode at its place, reads back every other inode as before, and is the one block that changes; all trees, bitmap marks and file bytes stay. |
| Fs.FileSystem.Balloc | proj_FileSystem/xv6-public/fs.c:55-78 | The lowest free block, marked and zeroed, nothing else marked; "out of blocks" exactly when every block is used. |
| Fs.FileSystem.Bfree | proj_FileSystem/xv6-public/fs.c:80-96 | Exactly that block becomes free; "freeing free block" exactly when its bit was clear. |
| Fs.FileSystem.Bzero | proj_FileSystem/xv6-public/fs.c:41-51 | The block is zero, no other block and no bitmap bit changes. |
| Fs.FileSystem.Bmap | proj_FileSystem/xv6-public/fs.c:373-461 | A partial map that is kept: a mapped block is found with no change at all, otherwise only missing positions on the way receive fresh, zeroed, newly marked blocks; all other mappings, all bytes and well-formedness stay; out of range exactly from MAXFILE on; only accounted blocks are logged. |
| Fs.FileSystem.Itrunc | proj_FileSystem/xv6-public/fs.c:468-542 | Every data and index block of the file is freed once, no other bit changes, no "freeing free block" panic, all slots and the size are zero in memory and on disk, the other inodes on disk stay; logged are exactly the bitmap blocks of the freed blocks and the inode block. |
| TruncateLog.LogsBoth | proj_FileSystem/xv6-public/fs.c:468-542 | The number of distinct blocks a truncation logs is one more than the bitmap blocks its file touches. |
| TruncateLog.LogsAtMost | proj_FileSystem/xv6-public/fs.c:468-542 | It is at most one more than the bitmap blocks that cover the data area. |
| TruncateLog.TruncateOverBudgetIff | proj_FileSystem/xv6-public/fs.c:468-542 | A truncation can log more than MAXOPBLOCKS distinct blocks exactly on disks whose data area has at least MAXOPBLOCKS bitmap blocks; the ten of a disk of FSSIZE = 40000 blocks suffice, with a file of ten direct blocks as witness. |
| FileSpec.SpliceConcat | proj_FileSystem/xv6-public/fs.c:588-618 | Writing two pieces one after the other is writing them together. |
| FileSpec.ReadBack | proj_FileSystem/xv6-public/fs.c:559-618 | Reading the written range returns the written bytes, for every offset including past the end; the gap reads as zero and bytes outside the range are kept. |
| FileSpec.WriteThenRead | proj_FileSystem/xv6-public/fs.c:559-618 | A read right after an accepted write of the same range answers with the bytes written. |
| FileSpec.PwriteIsWriteIffOneChunk | proj_FileSystem/xv6-public/file.c:176-216 | filepwrite, whose offset never advances between chunks, writes what a single write would for all contents exactly when n <= 1536. |
| FileSpec.PwriteLosesBytes | proj_FileSystem/xv6-public/file.c:196-212 | Any 1537 bytes at offset 0 of an empty file leave a file of 1536 bytes that starts with the last byte given. |
| FileIo.Readi | proj_FileSystem/xv6-public/fs.c:559-583 | An error past the end or on 32-bit overflow; otherwise min(n, size - off) bytes, byte i of them being byte off + i of the file; nothing is allocated or changed. |
| FileIo.WriteAt | proj_FileSystem/xv6-public/fs.c:602-617 | The file becomes the old one with the bytes spliced in at the offset, holes zero, all other files unchanged; all blocks below the new size are mapped; the inode is flushed when the size grows, so inodes on disk and in memory agree as before; every changed block is logged; at most nine blocks besides bitmap blocks are logged for a chunk. |
| FileIo.ChunkBound | proj_FileSystem/xv6-public/file.c:145-165 | The bound of nine as it applies to any offset and length of a chunk. |
| FileOps.Writei | proj_FileSystem/xv6-public/fs.c:585-618 | Refines a write to a flat byte array, with its refusals past the end, past the largest file and on overflow. |
| FileOps.Pwritei | proj_FileSystem/xv6-public/fs.c:620-650 | As writei without the end-of-file check, on a file whose blocks below the offset are mapped. |
| FileOps.Catchupoffset | proj_FileSystem/xv6-public/fs.c:652-667 | Maps every block from the end of the file up to the offset; no byte of any file changes. From an offset beyond the largest file it never returns: it ends in balloc's panic, or in bmap's "out of range", which needs a disk with room for MAXFILE data blocks. |
| FileOps.CatchupTurn | proj_FileSystem/xv6-public/fs.c:658-666 | Each of its transactions maps one block and logs at most eight blocks besides bitmap blocks. |
| FileOps.LargestFileFits | proj_FileSystem/xv6-public/fs.c:373-461 | A fully mapped file of MAXFILE blocks takes that many distinct blocks of the data area. |
| FileOps.Filepwrite | proj_FileSystem/xv6-public/file.c:176-216 | Refines the chunk-by-chunk meaning of pwrite, with the hole filled first. |
| FileOps.WriteChunk | proj_FileSystem/xv6-public/file.c:149-158 | One transaction of filewrite: a write to a flat file that logs every block it changes, at most nine besides bitmap blocks and so at most nine more than there are bitmap blocks, and keeps inodes on disk and in memory in agreement. |
| FileOps.OpenFile.Filewrite | proj_FileSystem/xv6-public/file.c:134-174 | Chunks at the advancing position amount to one write of the accepted prefix; the position advances by exactly that much; success exactly if everything was accepted. |
| FileOps.Run | proj_FileSystem/xv6-public/file.c:115-216 | Any sequence of preads, writes, pwrites and truncations answers as flat byte-array files would and leaves the same files; a run ends early only when the disk is full or a pwrite starts beyond the largest file. |
| CrashFiles.AgreementHolds | proj_FileSystem/xv6-public/fs.c:218-237 | Any disk that agrees from the inode blocks on with a consistent file system is, read through its own inodes, index blocks and bitmap, a well-formed file system (no block pointed to twice, every pointer marked) that holds the same files. |
| CrashFiles.RunStaysWhole | proj_FileSystem/xv6-public/log.c:125-233 | In every run of the log with these operations one at a time, however often it crashes, the durable blocks are those after the operations kept, and the volatile ones those after the operations seen, up to the blocks of the operation in progress. |
| CrashFiles.KeptStays | proj_FileSystem/xv6-public/log.c:192-202 | The number of operations that a crash leaves never decreases, and takes in all that were seen when a commit finished. |
| CrashFiles.ChunksAreAllOrNothing | proj_FileSystem/xv6-public/file.c:149-158 | Every chunk is wholly in the file or wholly absent: after any crash at any disk write of a commit and any crashes during recovery, recovery yields a well-formed file system that holds the files as a whole number of chunks leaves flat files, and no fewer than readers saw when any earlier commit finished. |
| CrashFiles.PiecesJoin | proj_FileSystem/xv6-public/file.c:145-168 | The first j chunks of a filewrite together are one write of the bytes they hold. |
| CrashFiles.FilewriteCrash | proj_FileSystem/xv6-public/file.c:134-174 | After a crash anywhere in filewrite the file is the old one with a whole number of chunks of the new bytes written at the position, no fewer than were seen when any commit finished, and all other files are as they were. |
| CrashFiles.FilewriteDurable | proj_FileSystem/xv6-public/file.c:134-174 | Once the commit of its last chunk has finished, the whole write survives every later crash. |
| CrashFiles.WriteChunks | proj_FileSystem/xv6-public/file.c:145-168 | The transactions of WriteChunk, one after the other, are chunks of the kind those theorems speak of: consistent between transactions, and every changed block logged. |
| Bio.Unlink | proj_FileSystem/xv6-public/bio.c:131-132 | Unlinking a buffer leaves a doubly linked list of the others in the same order. |
| Bio.InsertFront | proj_FileSystem/xv6-public/bio.c:133-136 | Linking behind the head puts the buffer first and keeps the rest in order. |
| Bio.BufferCache.constructor | proj_FileSystem/xv6-public/bio.c:38-56 | All buffers are on the list once, unused and clean. |
| Bio.BufferCache.Find | proj_FileSystem/xv6-public/bio.c:69-77 | The walk from the head finds the buffer caching a block exactly if there is one. |
| Bio.BufferCache.Victim | proj_FileSystem/xv6-public/bio.c:82-91 | The walk from the tail finds the unreferenced clean buffer released longest ago, or shows there is none. |
| Bio.BufferCache.Bget | proj_FileSystem/xv6-public/bio.c:58-93 | A hit or the least recently released eligible buffer; referenced and dirty buffers are never recycled; a block is cached at most once; no reader can tell; "no buffers" exactly when nothing is eligible. |
| Bio.BufferCache.Bread | proj_FileSystem/xv6-public/bio.c:95-106 | Returns the contents that a disk without a cache, with the pending logged writes applied, would return. |
| Bio.BufferCache.Edit | proj_FileSystem/xv6-public/bio.c:95-106 | A holder's change to its buffer is what readers of that block then see, and readers of every other block see what they saw. |
| Bio.BufferCache.Pin | proj_FileSystem/xv6-public/log.c:229-231 | log_write's B_DIRTY pins the buffer; what readers see does not change. |
| Bio.BufferCache.Bwrite | proj_FileSystem/xv6-public/bio.c:108-116 | The contents reach the disk, the buffer is clean, what readers see does not change. |
| Bio.BufferCache.Brelse | proj_FileSystem/xv6-public/bio.c:118-141 | The last user moves the buffer to the front, all others keep their order; the list stays a permutation sorted by time of release. |
| BioRun.Run | proj_FileSystem/xv6-public/bio.c:58-141 | Whatever sequence of bread, changes by holders, log_write, bwrite and brelse: every answer is that of a flat disk, the device holds exactly what bwrite put there, and the run ends early exactly at a bread of a block not in use while NBUF others are held or pinned. |
| BioRun.FoundBuffer | proj_FileSystem/xv6-public/bio.c:58-93 | bget finds a buffer only if the block is in use or fewer than NBUF blocks are. |
| BioRun.NoneFound | proj_FileSystem/xv6-public/bio.c:92 | bget's panic means that NBUF other blocks are held or pinned. |
| CommitBuffers.LogPassWrites | proj_FileSystem/xv6-public/log.c:176-190 | As operations on the cache, the first t turns of write_log put the first t blocks, as readers see them, into the log area of the device and leave what readers see of all other blocks. |
| CommitBuffers.CommitInstalls | proj_FileSystem/xv6-public/log.c:192-202 | As operations on the cache, a commit leaves every block of its transaction on the device as readers saw it before, and readers see every block outside of the log as before. |
| CommitBuffers.CommitPasses | proj_FileSystem/xv6-public/log.c:68-202 | write_log, write_head, install_trans and write_head leave nothing pinned. |
| CommitBuffers.CommitPanicsIff | proj_FileSystem/xv6-public/log.c:176-202 | When no other buffer is held, one of a commit's breads finds no buffer exactly if the transaction has NBUF blocks or more, and then the first one already; LOGSIZE equals NBUF. |
| SleepLock.InvKept | xv6-original/sleeplock.c:22-42 | Every single step of acquiresleep, sleep, wakeup and releasesleep of any process keeps ownership of both spin locks, of the sleep-lock, and the wakeup invariant. |
| SleepLock.LeavesLoopTaking | xv6-original/sleeplock.c:26-30 | A process leaves the loop of acquiresleep only by a step of its own from a free lock to one that it holds: a woken process tests again. |
| SleepLock.AcquireTakesLock | xv6-original/sleeplock.c:22-32 | acquiresleep returns with the lock: in every interleaving a process that has entered it and is later outside of it has been in its critical section since, as the holder whom lk->pid names. |
| SleepLock.CallHoldsLock | xv6-original/sleeplock.c:22-42 | The same between a call of acquiresleep and the end of the releasesleep that follows it. |
| SleepLock.ReleaseAdvances | xv6-original/sleeplock.c:34-42 | releasesleep ends: each of its steps, the scan over n processes included, brings the end one step nearer, and no other process's step moves it. |
| SleepLock.ReleasedByThen | xv6-original/sleeplock.c:36-41 | From its wakeup scan on, a releasing process no longer holds the lock. |
| SleepLock.UncontendedAcquire | xv6-original/sleeplock.c:22-32 | A process that finds both locks free holds the sleep-lock after four steps of its own. |
| SleepLock.MutualExclusion | xv6-original/sleeplock.c:22-42 | In every interleaving of any number of processes at most one is in its critical section, and lk->pid names it. |
| SleepLock.NoLostWakeup | xv6-original/proc.c:417-474 | In every interleaving, if the lock is free while a process sleeps on it or is committed to sleep under ptable.lock, a releaser still has that process ahead of its wakeup scan. |
| SleepLock.ScanWakes | xv6-original/proc.c:455-465 | When the scan passes a process, that process is no longer asleep on the lock. |
| SleepLock.NoDeadlock | xv6-original/sleeplock.c:22-42 | As long as some process is inside the protocol, one of them can take a step. |
| PageTable.StoredMaps | xv6-original/vm.c:57-80 | Storing one entry changes one page of the flat map; every other page of every directory keeps its entry. |
| PageTable.MapUser | xv6-original/vm.c:57-80 | Mapping a held frame at an empty user page gives the frame its one owner and keeps every directory, table and frame in order. |
| PageTable.UnmapUser | xv6-original/vm.c:266-276 | Clearing a mapped user page and returning its frame keeps every directory, table and frame in order. |
| PageTable.NewTableMaps | xv6-original/vm.c:42-53 | Adding a zeroed page table maps no page and keeps every directory's flat map. |
| Vm.Memory.Walkpgdir | xv6-original/vm.c:32-55 | The entry's table exists afterwards exactly if it is found; a missing one is added only on request, zeroed; no page of any directory changes. |
| Vm.Memory.MapOne | xv6-original/vm.c:57-80 | One turn of mappages: "remap" exactly if the page is present, otherwise the page maps the frame with the permissions and every other page of every directory is unchanged. |
| Vm.Memory.Mappages | xv6-original/vm.c:57-80 | A range of kernel pages maps consecutive frames; nothing else changes in any directory, also when memory runs out. |
| Vm.Memory.Setupkvm | xv6-original/vm.c:117-136 | A new directory with exactly the rows of kmap mapped, exactly if there are frames for the directory and the page tables of the rows; otherwise every frame is as before. |
| Vm.Memory.Deallocuvm | xv6-original/vm.c:251-279 | Every page that starts in [newsz, oldsz) is unmapped and its frame freed, also across missing page tables; every other page keeps its entry, and every other frame its use. |
| Vm.Memory.Allocuvm | xv6-original/vm.c:219-249 | It succeeds exactly if the free frames suffice for the pages and the page tables they lack. Then every byte below newsz whose page starts at oldsz or above lies in a zeroed user page on a frame that was free, and pages that start elsewhere keep their entries; failure restores the user map and frees every page frame it took. |
| Vm.Memory.Freevm | xv6-original/vm.c:281-298 | Frees exactly the user frames, page tables and directory of its argument, each once; every other directory keeps its map and pages. |
| Vm.Memory.CopyPage | xv6-original/vm.c:324-336 | The child's page has the parent's contents and flags on another frame; it fails without loss exactly if no frame is free, and loses the copied frame exactly if it was the last free frame and the child has no page table for the page yet; failure maps nothing. |
| Vm.Memory.Copyuvm | xv6-original/vm.c:313-343 | It succeeds exactly if the free frames suffice for the directory, its kernel tables, the pages and their tables: every byte below sz lies in a page of equal contents and flags on a frame that was free, no user page starts at sz or above, the parent and all others are unchanged. Otherwise every frame is returned but at most one, and one is lost exactly if the number of free frames is the one at which the first page of some page table takes the last of them. |
| Vm.LosesOne | xv6-original/vm.c:324-342 | For any rows of kmap, which take k page tables: a memory with k + 2 free frames and a process of one page, on which copyuvm fails and loses a frame. |
| Vm.LosesFirst | xv6-original/vm.c:324-342 | With k + 2 free frames, k of them for kernel page tables, copyuvm loses a frame whatever the size of the process. |
| Stride.Select | proj_FileSystem/xv6-public/proc.c:714-733 | The smallest pass, and the lowest slot that has it if it beats the MLFQ; ties go to the MLFQ. |
| Stride.Choose | proj_FileSystem/xv6-public/proc.c:714-767 | The round that the selection loop picks is one that the run theorems allow. |
| Stride.RoundKeepsClose | proj_FileSystem/xv6-public/proc.c:735-815 | One round keeps every client within one of its strides above the minimum and the MLFQ within four. |
| Stride.RunStaysClose | proj_FileSystem/xv6-public/proc.c:716-767 | The same in every state of every run of rounds with fixed shares and MLFQ slices of at most four ticks. |
| Stride.PassCountsTurns | proj_FileSystem/xv6-public/proc.c:797-815 | A pass is its start plus, for each turn of its owner, what charge() adds for the owner's share. |
| Stride.TurnsAreProportional | proj_FileSystem/xv6-public/proc.c:797-815 | From an even start, the turns of two clients, each weighted by MAXTICKET divided by its share, differ by at most that weight of the one ahead, after any number of rounds. |
| Stride.MlfqIsProportional | proj_FileSystem/xv6-public/proc.c:735-767 | The same between the MLFQ and a client, with four ticks for the MLFQ. |
| Stride.TurnsFollowShares | proj_FileSystem/xv6-public/proc.c:797-815 | Without division: the turns of two clients are in the proportion of their shares, up to one turn and the rounding of MAXTICKET / share. |
| Stride.MlfqFollowsShares | proj_FileSystem/xv6-public/proc.c:735-815 | The same for the ticks of the MLFQ, both ways. |
| Stride.LargerShareNotBehind | proj_FileSystem/xv6-public/proc.c:714-815 | A client is never more than one turn behind another whose share is no larger. |
| MlfqQueue.PutFirst | proj_FileSystem/xv6-public/proc.c:36-51 | initpush prepends to the hole-free sequence the array holds; it fails exactly when the array is full. |
| MlfqQueue.PutLast | proj_FileSystem/xv6-public/proc.c:58-72 | push appends; it fails exactly when the array is full. |
| MlfqQueue.RemoveAt | proj_FileSystem/xv6-public/proc.c:111-113 | pop's shifting loop removes one element and leaves no hole. |
| MlfqQueue.FullWalk | proj_FileSystem/xv6-public/proc.c:159-174 | A walk of NPROC places from any start, wrapping around, meets the elements in rotated order, each once. |
| SchedTable.RoomForAll | proj_FileSystem/xv6-public/proc.c:36-72 | The queues together never hold more than NPROC entries, and fewer if any process is unqueued: the "no empty place" panics are unreachable. |
| SchedTable.QueuedIffFlag | proj_FileSystem/xv6-public/proc.c:36-120 | A process is in some queue exactly if its inqueue flag is set. |
| SchedTable.InitPushedKeeps | proj_FileSystem/xv6-public/proc.c:36-51 | initpush of an unqueued process keeps the queues disjoint, free of repetitions and marked. |
| SchedTable.PoppedKeeps | proj_FileSystem/xv6-public/proc.c:102-120 | So does pop. |
| SchedTable.BoostedKeeps | proj_FileSystem/xv6-public/proc.c:154-176 | So does boostpriority, which leaves the same processes queued. |
| SchedShares.ChargedKeeps | proj_FileSystem/xv6-public/proc.c:221-223 | Moving a share between a main thread and the pool keeps their sum at 100. |
| SchedShares.ShareSet | proj_FileSystem/xv6-public/proc.c:208-254 | set_cpu_share: refused requests change nothing; a granted one gives the process its new share, takes the difference from a pool that stays at 20 or more, changes no other share, and keeps queue, share and thread invariants. |
| ShareLaw.PopThreadsTook | proj_FileSystem/xv6-public/proc.c:243-246 | The loop that takes a process's threads off the queues leaves in each queue exactly the others, in their order; it clears the flag of exactly its threads that are not zombies. |
| ShareLaw.PushThreadsGave | proj_FileSystem/xv6-public/proc.c:226-229 | The loop that puts them back sets the flag of exactly the threads that are not zombies; those that were in no queue stand in front of queue 0, the other queues are unchanged. |
| ShareLaw.ShareSetShared | proj_FileSystem/xv6-public/proc.c:208-254 | What a granted request does to the whole table: a first share withdraws the threads and sets the pass to the minimum; a share given up returns the threads; any other change moves only the share and the pool. |
| ShareLaw.WithdrawnThreads | proj_FileSystem/xv6-public/proc.c:243-248 | After a first share every thread of the process that is no zombie is unflagged and in no queue, every other slot keeps its flag, and the pass is the minimum pass. |
| ShareLaw.ReturnedThreads | proj_FileSystem/xv6-public/proc.c:225-229 | After a share is given up every such thread is queued; what is in front of the old queue 0 is exactly its threads that were in no queue; queues 1 and 2 and all other flags are unchanged. |
| SchedShares.DropWorker | proj_FileSystem/xv6-public/proc.c:584-595 | Giving back a worker keeps the thread tables of all processes consistent. |
| SchedLife.KillZombies | proj_FileSystem/xv6-public/proc.c:575-610 | killzombie keeps every invariant and, as only main threads hold shares, leaves the pool as it is. |
| SchedLife.KillZombiesFrame | proj_FileSystem/xv6-public/proc.c:575-610 | Exactly the zombie workers other than the caller are unlisted and cleared; nothing else of the table changes. |
| SchedLife.Reaped | proj_FileSystem/xv6-public/proc.c:628-671 | wait's reaping returns exactly the child's share to the pool and keeps every invariant. |
| SchedLife.Exited | proj_FileSystem/xv6-public/proc.c:519-572 | exit keeps every invariant and the pool; the share waits for the parent. |
| SchedLife.Forked | proj_FileSystem/xv6-public/proc.c:457-514 | fork, with or without memory for the copy, keeps every invariant and the pool. |
| SchedLife.ThreadCreated | proj_FileSystem/xv6-public/thread.c:77-149 | thread_create, in success and in both of its failures, keeps every invariant and the pool. |
| SchedLife.Joined | proj_FileSystem/xv6-public/thread.c:231-252 | thread_join drops a worker's share without crediting it and still conserves the total, because workers hold none. |
| SchedSteps.StepDoes | proj_FileSystem/xv6-public/proc.c:36-660 | Every step of every run (fork, thread_create, set_cpu_share, thread_join, thread_exit, exit, wait, a state change, boost, droppriority, top) does to slots, thread tables, queues, indexes, passes and the pool exactly what is said of it field by field, and changes nothing else; an exit of initproc, which panics, leaves the table as it is. |
| SchedSteps.ForkIs | proj_FileSystem/xv6-public/proc.c:457-515 | A child of the main thread in the lowest free slot, runnable, with full time limits, no share and the minimum pass, in front of queue 0; if the copy fails the slot stays free; with no free slot nothing changes. |
| SchedSteps.CreateIs | proj_FileSystem/xv6-public/thread.c:77-149 | A worker in the lowest free slot and the lowest free entry, with the main thread's parent, queued in front exactly if the process has no share; otherwise the slot stays free. |
| SchedSteps.JoinIs | proj_FileSystem/xv6-public/thread.c:231-252 | A zombie worker leaves entry, slot and queue; all others stay. |
| SchedSteps.ExitIs | proj_FileSystem/xv6-public/proc.c:519-572 | The main thread and the caller are zombies, all other workers' slots are given back and off the queues, whose others keep their order, children pass to the parent, everyone else is unchanged. |
| SchedSteps.WaitIs | proj_FileSystem/xv6-public/proc.c:614-673 | The lowest zombie child and all its threads are given back and its share is back in the pool; everyone else is unchanged. |
| SchedRuns.TopFindsIff | proj_FileSystem/xv6-public/proc.c:78-95 | top's wrapping search finds a process exactly when the queue holds a runnable one without a share. |
| SchedRuns.Dropped | proj_FileSystem/xv6-public/proc.c:126-148 | droppriority keeps the queue invariant and changes no share or thread table. |
| SchedRuns.RunKeepsInv | proj_FileSystem/xv6-public/proc.c:36-673 | In every run of fork, thread creation, share requests, join, exit, wait, boosts, drops and searches: pool and shares add up to 100, only live main threads hold a share, and the three queues are disjoint, free of repetitions and marked. |
| SchedRuns.PoolMoves | proj_FileSystem/xv6-public/proc.c:208-254 | Which steps move the pool and by how much: a granted request and a reaped main thread only. |
| SchedRuns.FloorFailsIff | proj_FileSystem/xv6-public/proc.c:661-663 | A step takes the pool below 20 exactly when wait reaps a child whose negative share the pool cannot bear. |
| SchedRuns.FloorHolds | proj_FileSystem/xv6-public/proc.c:208-254 | In every run whose requests are non-negative the pool stays between 20 and 100 and no share is negative. |
| SchedRuns.FloorCanFail | proj_FileSystem/xv6-public/proc.c:208-254 | For every n < 0, a run with the requests n and 80 - n that leaves the pool at 20 + n. |
| SchedRuns.FloorHoldsIff | proj_FileSystem/xv6-public/proc.c:208-254 | The floor holds in all runs whose requests are at least lo exactly if lo is not negative. |
| SchedStride.SharesFitStride | proj_FileSystem/xv6-public/proc.c:714-767 | In every run of non-negative requests all shares are between 0 and 80, and the assumptions of the stride theorems (positive shares of clients, a rest for the MLFQ) hold exactly if some process owns a share, so that selection never divides by zero. |
| SchedLevels.DroppedLevel | proj_FileSystem/xv6-public/proc.c:126-148 | droppriority as an operation on the table: the process leaves its place and stands last one level down with the literal limits of that level; nobody else, no index but that of the queue it left, and no share changes. |
| SchedLevels.BoostedOnTop | proj_FileSystem/xv6-public/proc.c:154-176 | boostpriority as an operation on the table: queue 0, then queues 1 and 2 each turned to the place after its index; exactly those who were in 1 or 2 get level 0 and its limits. |
| Sched.Drain | proj_FileSystem/xv6-public/proc.c:159-174 | boostpriority's inner loop: one array is emptied onto the end of another in rotated order and every process met is promoted. |
| Sched.ProcTable.Initpush | proj_FileSystem/xv6-public/proc.c:36-51 | On the array: the process in front of queue 0, the index of that queue -1, never the panic. |
| Sched.ProcTable.Push | proj_FileSystem/xv6-public/proc.c:58-72 | On the array: the process at the end of its queue, never the panic. |
| Sched.ProcTable.Top | proj_FileSystem/xv6-public/proc.c:78-95 | Returns the first eligible process after the index, null exactly if there is none, and leaves the index where it found it. |
| Sched.ProcTable.Pop | proj_FileSystem/xv6-public/proc.c:102-120 | Removes the process, marks it and sets the index; panics exactly if it was in no queue. |
| Sched.ProcTable.Droppriority | proj_FileSystem/xv6-public/proc.c:126-148 | The process leaves its place, stands last one level down, with ticks 0 and the limits 2 and 10 of level 1 (curticks 0) or 4 and 100 of level 2; nobody else changes. It panics exactly if the process was in no queue. |
| Sched.ProcTable.Boostpriority | proj_FileSystem/xv6-public/proc.c:154-176 | Queue 0 becomes itself, then queue 1, then queue 2, each of the two from the place after its index round to that index; the others are empty with index 0; whoever was in them has level 0, ticks 0, quantum 1 and allotment 5, and nobody else changes. |
| Sched.ProcTable.SetCpuShare | proj_FileSystem/xv6-public/proc.c:208-254 | The loops over the thread table: granted exactly if the pool keeps 20 and the request is not 0 from a process without a share; then the answer is n and queues, flags, passes, shares and pool are as ShareLaw says, otherwise -1 and nothing has changed. |
| Sched.ProcTable.Killzombie | proj_FileSystem/xv6-public/proc.c:578-610 | The loop performs the specified reaping. |
| Sched.ProcTable.Wait | proj_FileSystem/xv6-public/proc.c:614-673 | One pass reaps the first zombie child in table order, if there is one, as specified. |
| FreeList.InsertSorted | xv6-original/umalloc.c:33-42 | Freeing keeps the list in address order with no two blocks adjacent, in all four cases of joining neighbours. |
| FreeList.InsertCovers | xv6-original/umalloc.c:33-42 | Freeing adds exactly the units of the freed block to the free units. |
| FreeList.TakeSorted | xv6-original/umalloc.c:75-82 | Allocating keeps the list in address order with no two blocks adjacent. |
| FreeList.TakeCovers | xv6-original/umalloc.c:75-82 | Allocating splits the free units between the new block and the rest, without overlap. |
| Arena.FreeKeeps | xv6-original/umalloc.c:24-44 | Free and live blocks partition the units obtained from sbrk before and after free. |
| Arena.TakeKeeps | xv6-original/umalloc.c:74-85 | They do before and after an allocation, and the new block was not live. |
| Arena.GrowKeeps | xv6-original/umalloc.c:54-58 | They do with the region sbrk adds. |
| Umalloc.EnoughIff | xv6-original/umalloc.c:69 | The computed units hold nbytes exactly when nbytes + 7 does not wrap around 32 bits, and are minimal then. |
| Umalloc.SpliceLinks | xv6-original/umalloc.c:33-43 | The pointer and size stores of free produce the headers of the list with the block inserted, one cycle through the base. |
| Umalloc.Allocator.FindPlace | xv6-original/umalloc.c:29-32 | The cyclic scan from any freep stops, at the one free block after which the freed block belongs. |
| Umalloc.Allocator.Free | xv6-original/umalloc.c:24-44 | The block stops being live, its units join the free list, headers and partition stay consistent, freep is the block before it. |
| Umalloc.Allocator.Morecore | xv6-original/umalloc.c:46-61 | Null without change if sbrk fails; otherwise the arena has grown by exactly the units asked for, or 4096 if those are fewer, all of them free, and some block is large enough. |
| Umalloc.Allocator.Search | xv6-original/umalloc.c:74-88 | First fit in cyclic order after freep; it comes back empty exactly when no free block is large enough. |
| Umalloc.Allocator.Malloc | xv6-original/umalloc.c:63-90 | A new live block of the computed size disjoint from all others, at most one morecore call, made exactly when no block fits; null exactly if that call fails, and then nothing live or obtained changes. |
| ShTokens.ToksIff | xv6-original/sh.c:263-320 | A line is cut into given tokens exactly if it consists of their texts in order with any blanks around them, none needed where words run into a symbol; a word runs as far as it can, and two adjacent > are one token. |
| ShTokens.ToksOfRender | xv6-original/sh.c:265-308 | Reading the text of any list of tokens, with a blank behind each, gives the tokens back. |
| ShGrammar.ReadRedirs | xv6-original/sh.c:374-397 | Redirections are read one by one: < opens its file with mode 0 as descriptor 0, > and >> with mode 0x201 (write, create) as descriptor 1. |
| ShGrammar.ReadExec | xv6-original/sh.c:399-446 | A simple command, its words and redirections in any order, or a block with redirections behind it is read as the command meant, and leaves what follows. |
| ShGrammar.ReadPipe | xv6-original/sh.c:361-372 | The same for pipelines. |
| ShGrammar.ReadLine | xv6-original/sh.c:344-359 | The same for whole lines with lists and background commands. |
| ShGrammar.PrintThenParse | xv6-original/sh.c:327-446 | However a command is written (redirections by <, > or >> before, between and after words, parentheses anywhere), reading it gives the command meant, exactly when every simple command has at most nine words; otherwise the answer is "too many args". |
| ShGrammar.ParsesIff | xv6-original/sh.c:327-446 | The parser reads a command from exactly the ways of writing it, and from nothing else. |
| ShGrammar.ParsedIff | xv6-original/sh.c:327-446 | The commands that can be read are exactly those that redirect descriptor 0 with mode 0 or descriptor 1 with mode 0x201, and have at most nine words in each simple command. |
| Sh.Peek | xv6-original/sh.c:310-320 | Skips blanks only, and is true exactly when the next token starts with one of the characters. |
| Sh.Gettoken | xv6-original/sh.c:265-308 | Returns the next token's kind and span, moves past exactly it, and returns 0 exactly at the end. |
| Sh.Parseredirs | xv6-original/sh.c:374-397 | The loop collects exactly the redirections of the grammar, with the modes and descriptors of ShGrammar.ReadRedirs, or reports the missing file. |
| Sh.Parseexec | xv6-original/sh.c:415-446 | Agrees with the grammar on every line, panics included, and terminates. |
| Sh.Parseblock | xv6-original/sh.c:399-413 | Agrees with the grammar on every line, panics included, and terminates. |
| Sh.Parsepipe | xv6-original/sh.c:361-372 | Agrees with the grammar on every line, panics included, and terminates. |
| Sh.Parseline | xv6-original/sh.c:344-359 | Agrees with the grammar on every line, panics included, and terminates. |
| ShNul.EndIsNoLetter | xv6-original/sh.c:448-493 | A position that nulterminate overwrites is never inside any word of the tree. |
| ShNul.ReadIsStrings | xv6-original/sh.c:448-493 | After the NULs are stored, every argv and file string of the tree reads as exactly its source token. |
| ShNul.Nulterminate | xv6-original/sh.c:448-493 | Stores a NUL at exactly the word ends of the tree and changes nothing else; an exit of initproc, which panics, leaves the table as it is. |
| ShNul.Parsecmd | xv6-original/sh.c:327-342 | On success the words read from the buffer are those of the parsed line; on a syntax error the error is the grammar's and the buffer is untouched. |
| ShNul.RoundTrip | xv6-original/sh.c:265-493 | Every text of every way of writing a command, with any blanks, is read as the command meant, exactly when no simple command has more than nine words. |
| ShNul.AcceptsIff | xv6-original/sh.c:263-446 | parsecmd reads a command from a line exactly if the line is a text of a way of writing it with at most nine words in each simple command. |
| ShNul.EveryCommand | xv6-original/sh.c:263-446 | Every command that redirects only standard input and output, made of words that can be typed, has a line that is read as it. |
| Grep.ShowParse | xv6-original/grep.c:84-96 | Every text is the text of the pattern it is read as. |
| Grep.ParseShow | xv6-original/grep.c:84-96 | A pattern is read back from its text exactly if what precedes a '*' in it is starred and it does not end in a plain '$'. |
| Grep.MatchHereIsMatching | xv6-original/grep.c:84-96 | matchhere is true exactly when some prefix of the text is described by the pattern, all of it if the pattern ends in '$'. |
| Grep.MatchStarIsMatching | xv6-original/grep.c:98-106 | matchstar is true exactly when the starred character followed by the rest of the pattern matches here. |
| Grep.Matchstar | xv6-original/grep.c:98-106 | The do-while loop computes that recursion. |
| Grep.Match | xv6-original/grep.c:72-82 | 1 exactly when some position of the text (position 0 after '^') begins a string of the pattern's denotation. |

## Left out

- Memory ordering, interrupts and context switches: a spin-lock acquire is one step, a context switch is one step, the file system and the scheduler's table run one call at a time.
- The disk is an array of blocks with atomic single-block writes; ide.c and the other drivers are not modelled.
- Inode allocation, directories, path lookup and reference counts; the type, major, minor and nlink fields are carried unread in two words of the inode.
- Device files: the T_DEV branches of readi, writei and pwritei.
- CrashFiles.RunStaysWhole: the operations of the file system run one at a time, as in FileOps; the log's own theorems (LogMachine) have any number of them at once.
- A file system has one device; the log's use of the buffer cache is joined to it only through pinned buffers.
- Sleeping on a locked buffer.
- CommitBuffers.CommitPanicsIff: no buffer is held when the commit begins; buffers that readers outside any operation hold would make a smaller transaction panic.
- LogBudget.PanicsExactly: takes from the callers that an operation logs at most MAXOPBLOCKS distinct blocks; FileOps.WriteChunk proves nine besides bitmap blocks for filewrite, TruncateLog when itrunc exceeds it, and how many bitmap blocks a chunk touches depends on where its free blocks lie: with one bitmap block it stays within ten, with more the model bounds it by nine plus their number.
- FileOps.Pwritei: the blocks below the offset are mapped, as catchupoffset leaves them for its one caller; a file with holes below a written offset is not modelled.
- FileOps.Catchupoffset: it flushes no inode, so slots it filled reach the disk with the next iupdate, and FileOps.Pwritei is not joined to the crash theorems.
- Bio.BufferCache.Brelse: a holder that changed a buffer has to log or write it first; the loss of an unlogged change is not modelled.
- The frames on kmem.freelist are a set, so which free frame kalloc returns is left open.
- Vm.Memory.Mappages: ranges of several pages are modelled above KERNBASE, where setupkvm uses them; below it every caller maps one page at a time, which is MapOne. Its "remap" panic is an outcome of MapOne and a precondition of ranges.
- Vm.Memory.Allocuvm: the pages it is to add are unmapped beforehand; otherwise mappages panics.
- Vm.Memory.Copyuvm: the parent's pages are present; the panics for a missing one are not modelled.
- Vm.Memory.Deallocuvm: sizes are at most KERNBASE, as its callers ensure.
- inituvm, loaduvm, clearpteu, uva2ka, copyout and the switching of address spaces.
- Passes are unbounded integers; the overflow of an int pass after long runs is not modelled.
- The loop of scheduler() as a whole: it may read a null or stale mproc, keep the lock on one path and divide by a share that became 0. Its selection and charging steps are modelled under the conditions Stride states.
- Fairness inside a queue: extra calls of top advance the index past processes that do not run.
- exec.c, which pushes a process without looking at its inqueue flag.
- SchedLife.Forked, SchedLife.ThreadCreated: one step each; a share request between the allocation of the slot and its last lines is not interleaved.
- SchedLife.Joined: names the thread by its place in the thread table instead of searching for its tid.
- Sched.ProcTable.Wait: one pass over the table; sleeping and closing of files are not modelled.
- Sched.ProcTable.Droppriority: called for priorities 0 and 1, as the scheduler does; for 2 the code indexes past the queues before it panics.
- Umalloc.Allocator.Malloc: sbrk is a parameter that answers with a fresh region above the base or fails; the conversion of its argument to a signed int is not modelled.
- runcmd, the built-in cd and reading of command lines.
- The execcmd node is filled through its pointer while redirections already wrap it; the model keeps words and wrapping redirections apart until the command is complete.
- grep's buffer loop, and the other user programs, console, pipes and system call plumbing: easier members.
