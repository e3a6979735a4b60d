# Verification

A Dafny model of an xv6-style kernel in Rust: its crash-safe file system and the machinery below it.
`dafny verify dfyconfig.toml` checks the whole project.

| file | what it models |
|---|---|
| Layout.dfy, BlockFormat.dfy, LogHeader.dfy, OnDiskFormat.dfy, Collections.dfy | sizes, little-endian words, index and bitmap blocks and the log header as bytes; where every field lies on disk |
| BufferCache.dfy, CacheOrder.dfy | the buffer cache under any interleaving of tasks: hit, load, eviction, write; what is evicted |
| WriteAheadLog.dfy, CrashSafety.dfy, LogAdmission.dfy, LogFull.dfy | the log, the cache, the disk, crashes and recovery as one machine, and its runs; whom the log lets in, and how long a commit takes |
| LogCode.dfy | `begin_op`, `log_write`, `end_op`, `commit` and `recover` as code, tied to that machine |
| FileTree.dfy, FileTrim.dfy, FileOps.dfy, DiskFull.dfy | the sparse block tree, the bitmap, `bmap_or_alloc`, `readi`, `writei`, `itrunc_to`; a nearly full disk |
| InodeTable.dfy | inodes as 128-byte records in blocks: `iupdate` and loading |
| FsCrash.dfy | file operations over the log: what a mount finds after a crash |
| BlockSharing.dfy | tasks that grow and shrink files at the same time, from await to await |
| Mkfs.dfy | the image builder |
| Directory.dfy, PathWalk.dfy, PathOnDisk.dfy | directories as files of 16-byte slots; path resolution with symlinks, on any file system and over the disk |
| ExitWait.dfy, WaitAnswers.dfy, Wakeups.dfy | fork, exit, wait, kill and reparenting, and what they mean to callers; the executor and every register-then-check wait |
| Heap.dfy | the first-fit heap with splitting and coalescing |
| PteCodec.dfy, PageTable.dfy, Mmu.dfy | page-table entries and multi-level tables of both architectures, on a frame allocator; what the hardware makes of them |
| DiskQueue.dfy | the descriptor table and rings of the block driver, against any device |

How the code is read:

- Disk: one block write is atomic, and a crash falls between any two writes. A crash loses all memory.
- Steps: a step is one stretch of a task from await to await, or one lock section or atomic operation
  where harts meet (log admission, wakeups, exit and wait). Memory is sequentially consistent.
- What a caller promises: an operation logs at most MAXOPBLOCKS different blocks between `begin_op` and
  `end_op`; home blocks lie outside the log. Everything else is proved.
- Blocks are tied to bytes by formats with laws (`Codec`, `Format`), and the formats of the code are
  shown to obey them.
- Integers are unbounded except where the code narrows or wraps: the length of a read, ring indices,
  task ids, page-table words, inode numbers in directory slots.

## Model

| member | source | states |
|---|---|---|
| LogHeader.HeaderRoundTrip | crates/kernel/src/fs/log.rs:260-287 | reading back a written header gives the block list, for every list that fits |
| LogHeader.WriteHeader | crates/kernel/src/fs/log.rs:274-287 | the encoding loop leaves exactly the encoded header in the buffer |
| LogHeader.ReadHeader | crates/kernel/src/fs/log.rs:260-272 | the decoding loop computes the decoding function on any block, with the count cut to LOGSIZE |
| OnDiskFormat.HeaderBytes | crates/kernel/src/fs/log.rs:274-287 | in a written header the count is bytes 0 to 3 and block number k the four bytes from 4 + 4k on, least significant first |
| OnDiskFormat.HeaderReads | crates/kernel/src/fs/log.rs:260-272 | any block reads as the numbers at those places, as many as its count says but at most 30 |
| WriteAheadLog.HeaderCodec | crates/kernel/src/fs/log.rs:260-291 | the byte format of the header obeys the laws that the crash proofs use |
| BufferCache.PickEvictSlot | crates/kernel/src/driver/bio.rs:206-235 | a slot neither valid nor loading if there is one, else the first of the least recently used that nobody holds; none only when every slot is loading or held |
| BufferCache.ActKeepsView | crates/kernel/src/driver/bio.rs:123-204 | every cache action of any task in any state keeps: at most one buffer per block, buffers show the latest contents, a block that differs from disk stays in a held buffer; and it leaves held buffers their block |
| BufferCache.BreadReturnsLatest | crates/kernel/src/driver/bio.rs:123-204 | what `bread` hands out is the latest contents of the block asked for, on a hit and after a load |
| BufferCache.EvictedIsClean | crates/kernel/src/driver/bio.rs:140-235 | an evicted buffer is held by nobody and its contents are on disk |
| CacheOrder.EvictsLeastRecent | crates/kernel/src/driver/bio.rs:206-235 | over every run with the log, a load into a slot that is not empty takes, of the slots nobody holds, one whose last hit or load is the earliest |
| CacheOrder.UseRecorded | crates/kernel/src/driver/bio.rs:87-204 | over every run, the stamp of a slot is the clock at the last hit or load of that slot since boot |
| CacheOrder.BreadDecides | crates/kernel/src/driver/bio.rs:123-204 | in every state `bread` of a block hits exactly when it is cached, waits exactly when it is only being loaded, and loads it exactly when neither and some slot is empty or held by nobody |
| WriteAheadLog.StepKeepsInv | crates/kernel/src/fs/log.rs:101-291 | one invariant for log, cache, disk and history is kept by every step, crashes included |
| CrashSafety.CrashConsistency | crates/kernel/src/fs/log.rs:101-291 | at every point of every run, recovery from the disk as it is would leave exactly the effect of the committed writes, and no operation has writes on both sides of that boundary |
| CrashSafety.CommittedForever | crates/kernel/src/fs/log.rs:101-291 | the committed history at one point of a run is a prefix of the committed history at every later point, across any crashes |
| CrashSafety.CrashThenRecover | crates/kernel/src/fs/log.rs:101-123 | after a crash and any number of crashes inside recovery, once the system serves again the home blocks on disk are the effect of the writes committed before the crash, no more and no less |
| CrashSafety.IdleIsDurable | crates/kernel/src/fs/log.rs:192-256 | at every point of every run at which the log serves, everything logged is committed if and only if no group is open |
| CrashSafety.EndCommits | crates/kernel/src/fs/log.rs:192-215 | in every run, when `end_op` returns, the operation's writes are committed if and only if it was the last one open or had logged nothing |
| CrashSafety.ReadsLatest | crates/kernel/src/driver/bio.rs:123-204 | outside recovery every valid buffer of a home block shows the replay of all writes logged so far |
| CrashSafety.AssertionsOverRuns | crates/kernel/src/fs/log.rs:175-215 | at every point of every run, the assertions of the log hold for a step a correct caller can take if and only if the step is not a `log_write` on a full log |
| CrashSafety.ReservationOverRuns | crates/kernel/src/fs/log.rs:127-190 | at every point of every run, entries plus all unused budgets fit LOGSIZE, entries are distinct and pinned in a buffer of their block, an operation with budget left has room, no operation is open during a commit |
| LogAdmission.AdmittedExactly | crates/kernel/src/fs/log.rs:127-148 | at every point of every run `begin_op` lets an operation in if and only if no commit or recovery is under way and the entries, with MAXOPBLOCKS for each open operation and for one more, fit LOGSIZE |
| LogAdmission.QuietAdmits | crates/kernel/src/fs/log.rs:127-256 | over every run, with no operation open and no commit or recovery under way the log is empty and lets an operation in |
| LogAdmission.WaitAgrees | crates/kernel/src/fs/log.rs:150-173 | at every point of every run the test of a waiting task and that of `begin_op` agree |
| LogAdmission.LogIsWaitedFor | crates/kernel/src/fs/log.rs:127-256 | every step of the log is, to those who wait for it, the step of that name in the wakeup protocol, or changes nothing they read |
| LogAdmission.CommitTakes | crates/kernel/src/fs/log.rs:219-256 | in every run a commit of n blocks ends after exactly 3n + 6 steps of the committing task, whatever the cache does meanwhile |
| LogAdmission.NeverStuck | crates/kernel/src/fs/log.rs:101-256 | the committing or recovering task can go on as soon as it holds the buffers it wants |
| LogAdmission.OpenMay | crates/kernel/src/fs/log.rs:175-215 | at every point of every run an open operation may end, and may log a buffer it holds if and only if the log is not full and the block is recorded or its budget not used up |
| LogFull.RecordedWriteRefused | crates/kernel/src/fs/log.rs:175-190 | a run from power-on that ends with a full log, and a write to a recorded block that the assertion refuses |
| LogFull.EndedWriteLost | crates/kernel/src/fs/log.rs:192-215 | a run from power-on in which `end_op` returns, the power fails and, once the log serves again, the write is gone from disk |
| LogCode.CommitIsAtomic | crates/kernel/src/fs/log.rs:219-256 | after any number of the writes of a commit, recovery leaves all old contents up to the header write and all new ones from it on |
| LogCode.CommitEnds | crates/kernel/src/fs/log.rs:219-256 | after its last write the group is in its home blocks |
| LogCode.ReplayIsIdempotent | crates/kernel/src/fs/log.rs:101-123 | a replay cut off after any number of rounds leaves an intact log, and replaying again gives the same home blocks |
| LogCode.CommitFollows | crates/kernel/src/fs/log.rs:219-256 | in every run of the machine, from the start of a commit on and with any cache traffic in between, the disk goes through the disks of that write sequence one after the other |
| LogCode.CommitStarts | crates/kernel/src/fs/log.rs:192-256 | the end of the last operation starts that sequence with the logged contents |
| LogCode.LogState.TryBegin | crates/kernel/src/fs/log.rs:127-148 | passes exactly when the log serves and the entries, with MAXOPBLOCKS for each open operation and one more, fit LOGSIZE, and then makes the step of the machine |
| LogCode.LogState.LogWrite | crates/kernel/src/fs/log.rs:175-190 | absorption or append is the machine's step |
| LogCode.LogState.EndOp | crates/kernel/src/fs/log.rs:192-215 | the machine's step; it reports whether to commit |
| LogCode.LogState.Commit | crates/kernel/src/fs/log.rs:219-256 | the disk after each of its writes is that of the write sequence, and the group is empty after it |
| LogCode.LogState.Recover | crates/kernel/src/fs/log.rs:101-123 | the disk after each write is that of the install sequence, and the last is the recovered disk |
| BlockFormat.BytesLaws | crates/kernel/src/fs/bmap.rs:42-55 | index entries and bitmap bits in bytes read back what was written and leave the other entries and bits alone |
| OnDiskFormat.IndexBytes | crates/kernel/src/fs/inode.rs:328-449 | entry k of an index block is the four bytes from 4k on |
| OnDiskFormat.UsedBits | crates/kernel/src/fs/bmap.rs:28-94 | block b is in use exactly when bit i mod 8 of byte i div 8, i being b mod 4096, of block bmapstart + b div 4096 is set |
| OnDiskFormat.FileBytes | crates/xv6-fs-layout/src/lib.rs:62-75 | where byte k of a file lies: through which address of the inode and which index entries, for direct, single and double indirect blocks |
| FileTree.ClaimKeeps | crates/kernel/src/fs/bmap.rs:28-73 | claiming a free block keeps ownership, all references and all bytes of all files |
| FileTree.LinkKeeps | crates/kernel/src/fs/inode.rs:371-449 | linking a fresh block into any slot keeps ownership and every byte of every file, and adds one reference |
| FileOps.FileSystem.Balloc | crates/kernel/src/fs/bmap.rs:28-73 | the lowest free block, marked and zeroed; fails exactly on a full disk, changing nothing |
| FileOps.FileSystem.BmapOrAlloc | crates/kernel/src/fs/inode.rs:371-449 | fills only empty slots on the way to the block and changes no byte; it fails exactly when fewer blocks are free than are missing on that way, and then has taken all that were free |
| FileOps.FileSystem.Bmap | crates/kernel/src/fs/inode.rs:328-366 | the block number in the slot of a file block, 0 for a hole at any level and past the largest file |
| FileOps.FileSystem.Readi | crates/kernel/src/fs/inode.rs:286-320 | exactly the slice of the file's byte string, with holes as zeros |
| FileOps.FileSystem.Writei | crates/kernel/src/fs/inode.rs:455-492 | ownership kept; the byte string is overlaid with the written prefix, zero-padded up to the offset; 0 leaves it unchanged and is returned exactly when fewer blocks are free than the first block of the range lacks, and the tree then stays the same exactly when none is free; short only on a full disk or at the size cap, and then at a block boundary; other files unchanged; the blocks it logs, among them every block it changes |
| DiskFull.OneFreeTwoMissing | crates/kernel/src/fs/inode.rs:371-449 | a well-formed disk with one free block and a file that lacks two on the way to its block 12 |
| DiskFull.ZeroWriteTakesBlock | crates/kernel/src/fs/inode.rs:455-492 | `writei` there returns 0 for any data; the free block is taken, and the inode table does not name it |
| FileOps.FileSystem.ItruncTo | crates/kernel/src/fs/inode.rs:545-779 | ownership kept; the byte string is cut or zero-extended; exactly the blocks past the cut are freed, each once; other files unchanged; the blocks it logs, among them every block it changes |
| FileOps.WriteFitsBudget | crates/kernel/src/syscall.rs:1329-1393 | a write of at most 1536 bytes, at any offset of any sparse tree, logs at most 9 blocks on a disk with one bitmap block |
| FileOps.TruncFitsBudget | crates/kernel/src/fs/inode.rs:545-779 | a truncation of any tree to any size logs at most 5 blocks on such a disk |
| InodeTable.WordsRoundTrip | crates/xv6-fs-layout/src/lib.rs:58-91 | every inode whose fields fit comes back from the 32 words of its record |
| InodeTable.LoadOfSave | crates/kernel/src/fs/inode.rs:496-530 | loading after `iupdate` gives the inode saved, and the other three inodes of the block as they were, for every block |
| InodeTable.ImageLoads | crates/kernel/src/fs/inode.rs:251-281 | from a disk with a table of inodes written into its blocks every inode of the table loads |
| InodeTable.ImageSave | crates/kernel/src/fs/inode.rs:496-530 | `iupdate` of one inode makes the disk of a table into the disk of the new table |
| OnDiskFormat.InodeHalves | crates/xv6-fs-layout/src/lib.rs:58-91 | in a saved inode the 16-bit fields are the bytes 0 to 13 of its record, in the order of the structure |
| OnDiskFormat.InodeWords | crates/xv6-fs-layout/src/lib.rs:58-91 | its size, times and block numbers are the words from bytes 16, 20, 24, 28 and 32 + 4i on |
| OnDiskFormat.InodePlace | crates/kernel/src/fs/inode.rs:251-281 | inode f is read from byte 128 (f mod 4) on of block inodestart + f div 4 |
| FsCrash.MountsGood | crates/kernel/src/fs/inode.rs:251-281 | a disk that agrees past the log with a good state mounts to the files memory shows: inodes, ownership of blocks, zero tails, every byte, also where the table lags behind memory |
| FsCrash.GoodAfter | crates/kernel/src/fs/inode.rs:371-530 | an operation on one file leaves a good state, whether it updates the inode table or, having written nothing, only took blocks |
| FsCrash.LogsAfter | crates/kernel/src/fs/inode.rs:455-530 | the disk, inode table included, then differs only in blocks the operation logged, none of them in the log area |
| FsCrash.Perform | crates/kernel/src/fs/inode.rs:455-779 | any sequence of writes and truncations of any files: each has its effect on the byte strings, leaves a good state and logs what it changes, fewer than MAXOPBLOCKS blocks for a chunk on a disk with one bitmap block |
| FsCrash.GroupsFor | crates/kernel/src/fs/log.rs:175-190 | for any such sequence, writes of the logged blocks that carry the disk from each state to the next |
| FsCrash.FilesSurvive | crates/kernel/src/fs/log.rs:101-291 | in every run, if the power fails between or inside operations so carried, and any number of times inside recovery, then once the log serves again the disk mounts to exactly the files after some number of them: those whole, the others not at all |
| BlockSharing.StepKeepsInv | crates/kernel/src/fs/bmap.rs:18-94 | every await-to-await step of any task keeps: one owner per block, the bitmap marks exactly what is owned, only a locked file may name blocks it has given up |
| BlockSharing.BitmapAsserts | crates/kernel/src/fs/bmap.rs:76-94 | in every run, `bfree` finds its block marked and `balloc` takes a block that no file and no task has |
| BlockSharing.Isolated | crates/kernel/src/fs/inode.rs:105-140 | over any stretch of a run in which no task that has locked a file steps, that file's blocks and contents stay the same |
| BlockSharing.OwnStarts | crates/kernel/src/fs/bmap.rs:18-94 | every well-formed tree is a start of such runs |
| BlockSharing.QuietOwns | crates/kernel/src/fs/inode.rs:371-779 | whenever all tasks have let go, no block is named twice, and the marked blocks are those that files name and those outside all files at the start |
| Mkfs.FsBuilder.AllocBlock | mkfs/src/main.rs:102-108 | the next block, unused so far, gets marked; no file changes |
| Mkfs.FsBuilder.WriteFile | mkfs/src/main.rs:152-237 | the kernel's reading of the image gives exactly the data for this file and the old contents for every other; how many blocks it takes |
| Mkfs.RoundTrip | mkfs/src/main.rs:152-237 | what the builder wrote the kernel's `readi` reads back byte for byte, at every offset and length |
| Mkfs.Build | mkfs/src/main.rs:152-237 | from a blank image in the byte format, any files that fit, written one after the other, are all there |
| Mkfs.BuildAndRead | mkfs/src/main.rs:152-237 | any of them, at any offset and length, reads back through the kernel's `readi` |
| Directory.NameMatches | crates/kernel/src/fs/dir.rs:83-101 | the comparison loop decides equality of the stored name with the wanted one cut to 14 bytes |
| Directory.EntriesOfPwrite | crates/kernel/src/fs/dir.rs:131-146 | writing the 16 bytes of one slot changes that slot only, or appends one |
| OnDiskFormat.DirentBytes | crates/xv6-fs-layout/src/lib.rs:111-127 | an entry is its inode number in bytes 0 and 1 and its name in bytes 2 to 15 |
| OnDiskFormat.NameBytes | crates/kernel/src/fs/dir.rs:131-146 | of a name the first 14 bytes are stored, then zeros |
| Directory.WriteSlot | crates/kernel/src/fs/dir.rs:131-162 | through `writei` a slot is written whole or not at all, the latter only on a full disk or at the size cap; other files keep their contents |
| Directory.Dir.constructor | crates/kernel/src/fs/dir.rs:57-81 | any stored slots without doubles are a directory; without free slots they are as many as the names |
| Directory.Open | crates/kernel/src/fs/dir.rs:57-81 | every file of whole slots without doubles on a well-formed disk is a directory |
| Directory.Dir.Lookup | crates/kernel/src/fs/dir.rs:57-190 | finds what the map of live names says, and its slot |
| Directory.Dir.LinkName | crates/kernel/src/fs/dir.rs:106-147 | refuses a name that exists; else adds exactly it to the map, its entry going to the first free slot or a new one, unless the disk is full or the directory at its size cap |
| Directory.Dir.UnlinkName | crates/kernel/src/fs/dir.rs:151-190 | removes the name from the map, and frees its slot |
| Directory.Dir.Run | crates/kernel/src/fs/dir.rs:57-190 | any sequence of links and unlinks from a directory without free slots: the directory is the map those that succeeded make, and the file has exactly as many slots as there were names at the fullest moment |
| PathWalk.WalkIsResolve | crates/kernel/src/fs/path.rs:46-136 | where no symlink has an empty text, the walk of a path is the resolution of its list of names, a symlink being replaced by the names of its text |
| PathWalk.LinkIsSubstitution | crates/kernel/src/fs/path.rs:88-128 | walking front/link/rest is walking front/text/rest, or text/rest from the root, with one hop more |
| PathWalk.ComponentsJoin | crates/kernel/src/fs/path.rs:99-108 | splicing the strings joins the lists of names, whatever the slashes |
| PathWalk.ParentAgrees | crates/kernel/src/fs/path.rs:25-41 | if the parent walk gives a directory and a name, the walk that does not follow a last symlink gives what looking up the name there gives; if it gives nothing for a path with a name, that walk finds nothing |
| PathWalk.WalkIsDescent | crates/kernel/src/fs/path.rs:46-136 | without symlinks, lookups one after the other |
| PathWalk.ParentIsDescent | crates/kernel/src/fs/path.rs:46-136 | without symlinks, lookups up to the last name |
| PathWalk.SelfLink | crates/kernel/src/fs/path.rs:44-98 | a symlink to itself ends in failure after 40 hops |
| PathWalk.FortyHops | crates/kernel/src/fs/path.rs:44-98 | of a chain of symlinks of any length the end is found if and only if there are at most 40 |
| PathWalk.SplitOfJoined | crates/kernel/src/fs/path.rs:62-72 | splitting a path made of any names gives back these names |
| PathWalk.EndsAtNoLink | crates/kernel/src/fs/path.rs:46-136 | a walk that follows links does not end at one |
| PathWalk.NotADirectory | crates/kernel/src/fs/path.rs:74-78 | no name is found in what is no directory |
| PathOnDisk.Namex | crates/kernel/src/fs/path.rs:46-155 | the loop, with lookups in directory slots and link texts read from files, terminates on every path and symlink graph and computes the resolution of the names of the path: from inode 1, whatever the start, if its first byte is a slash, else from the start |
| PathOnDisk.WalkOnDisk | crates/kernel/src/fs/path.rs:46-155 | on any disk that walk is the resolution of the list of names |
| ExitWait.StepKeepsInv | crates/kernel/src/syscall.rs:776-1036 | every lock section and atomic operation of fork, exit, wait and kill keeps the invariant |
| ExitWait.HeldExactlyOnce | crates/kernel/src/syscall.rs:850-927 | at every point of every run each process but init is either reaped or in exactly one place of one list of children or of the hands of one exiting parent |
| ExitWait.ReapedWithItsCode | crates/kernel/src/syscall.rs:988-1036 | the reaper gets the code the child passed to exit, and the child was not reaped before |
| ExitWait.ReapedOnce | crates/kernel/src/syscall.rs:988-1036 | no two steps of a run reap the same child |
| ExitWait.NoLostExit | crates/kernel/src/syscall.rs:868-1036 | a parent parked in wait with a matching zombie is in the ready queue or about to be woken |
| ExitWait.NoLostKill | crates/kernel/src/syscall.rs:776-841 | the same for a parked process that was killed |
| WaitAnswers.WaitReturns | crates/kernel/src/syscall.rs:988-1036 | over every run a wait comes back only killed, or with a dead child it was asked for, that child's code and the child off its list; or because no child is what it was asked for; or, if it may not block, because one is |
| WaitAnswers.WaitParks | crates/kernel/src/syscall.rs:988-1036 | it parks only if it may block and has a child to wait for |
| WaitAnswers.DeadChildFound | crates/kernel/src/syscall.rs:1000-1028 | if a child asked for is dead when the poll locks the list, that poll comes back with a child, whatever others do |
| WaitAnswers.WaitsAsCalled | crates/kernel/src/syscall.rs:944-986 | over every run a process waits for the child, and in the manner, of its last call |
| WaitAnswers.OrphansGoToInit | crates/kernel/src/syscall.rs:868-912 | over every run, once a process is a zombie, every child it had when it called exit has been reaped or is on the list of init |
| WaitAnswers.CodesArePassed | crates/kernel/src/syscall.rs:868-927 | over every run the code on record of a process is one it passed to exit |
| WaitAnswers.KillsAreMeant | crates/kernel/src/syscall.rs:776-841 | over every run a process is marked killed if and only if a kill named it |
| WaitAnswers.ForkMeans | crates/kernel/src/syscall.rs:850-860 | a fork adds one running child at the end of the list of its caller and changes nobody else |
| WaitAnswers.NobodyIsStuck | crates/kernel/src/syscall.rs:776-1036 | over every run a process in the middle of a call can go on at once, unless init holds the list it waits for; a parked one exactly when it is in the ready queue |
| WaitAnswers.RunningMay | crates/kernel/src/syscall.rs:776-1036 | over every run a running process may fork, wait, kill any process and, unless it is init, exit |
| Wakeups.TidRoundTrip | crates/kernel/src/executor.rs:37-54 | CPU and slot come back out of a task id |
| Wakeups.TrueMeansDue | crates/kernel/src/fs/log.rs:151-215 | whatever operation makes a wait condition true is one after which the code wakes that list |
| Wakeups.StepKeepsInv | crates/kernel/src/executor.rs:141-240 | every step of every hart and interrupt handler keeps the invariant |
| Wakeups.NoLostWakeups | crates/kernel/src/wait.rs:52-74 | at every point of every run a parked task has a false condition, or is in its home queue, or an agent has yet to take its list or to push it |
| Wakeups.WaitsAreHonest | crates/kernel/src/wait.rs:52-74 | over every run a task that has registered goes on exactly when its condition holds as it checks, and parks exactly when it does not |
| Wakeups.SpawnedIsReady | crates/kernel/src/executor.rs:141-167 | over every run a new task is in the ready queue of its hart until that hart polls it |
| Wakeups.NoSlotIsLost | crates/kernel/src/executor.rs:141-232 | over every run each slot a hart has handed out is in use or on its free list |
| Wakeups.IdsAreUnique | crates/kernel/src/executor.rs:141-240 | a new task never gets the id of a live one, and a hart's queue holds only tasks of its own |
| Heap.ListAlloc.Alloc | crates/kernel/src/heap.rs:72-148 | null exactly when there is room at no address of any free block; else the payload goes to the lowest address with room: one new live block, aligned, large enough and at most 48 bytes larger than asked for, and the others as they were; the bytes in use and their peak; the arena stays tiled, the list ordered and complete, no two free neighbours |
| Heap.ListAlloc.Dealloc | crates/kernel/src/heap.rs:150-186 | that block leaves the live ones and nothing else does; its bytes leave those in use; it merges with free neighbours; the same invariant |
| Heap.LiveDisjoint | crates/kernel/src/heap.rs:72-186 | two live blocks never overlap and lie in the arena |
| Heap.AllFreeIsOne | crates/kernel/src/heap.rs:150-186 | with nothing live the arena is one free block again |
| Heap.BytesCover | crates/kernel/src/heap.rs:72-186 | live and free bytes add up to the arena |
| Heap.SmallAlignment | crates/kernel/src/heap.rs:84-110 | for alignments up to 16 a free block fits exactly when it has payload and header |
| PteCodec.Sv39Laws | crates/hal-riscv64/src/pagetable.rs:54-100 | decoding an encoded leaf or branch entry gives back address and permissions (Sv39, section 4.4 of the RISC-V Privileged Architecture) |
| PteCodec.ArmLaws | crates/hal-aarch64/src/pagetable.rs:48-113 | the same for the ARMv8 format (section D8.3 of the Arm Architecture Reference Manual) |
| PageTable.Space.Map | crates/hal-riscv64/src/pagetable.rs:210-239 | exactly the pages of the range get the new words, or on failure a proper prefix of them, with the reason; it takes at most one frame per level and page, and runs out only with fewer than that; the account of frames gains exactly the owned pages mapped |
| PageTable.Space.UnmapPage | crates/hal-riscv64/src/pagetable.rs:241-253 | removes one page, returns its frame, and changes no other page |
| PageTable.Space.Translate | crates/hal-riscv64/src/pagetable.rs:255-278 | the meaning of the page's word, none outside the address range |
| PageTable.MappedMeaning | crates/hal-aarch64/src/pagetable.rs:226-282 | translating an address of a mapped range gives frame plus offset and the permissions the format can show |
| Mmu.Sv39Means | crates/hal-riscv64/src/pagetable.rs:82-99 | the walk of the hardware, by its own index and permission bits, lets an access to a mapped page through if and only if it comes from the side the page is for, the page has that permission and is not write-only; it then ends at frame plus offset |
| Mmu.Sv39Faults | crates/hal-riscv64/src/pagetable.rs:170-199 | it faults on every page without a valid word |
| Mmu.WriteOnlyFaults | crates/kernel/src/elf.rs:159-171 | a user page mapped for writing only cannot be written, though `translate` shows it writable |
| Mmu.ArmMeans | crates/hal-aarch64/src/pagetable.rs:52-91 | the same for ARMv8: the user needs a user page with the permission, read always included; the kernel may read, write what is writable, and execute what is executable and no user page |
| Mmu.ArmFaults | crates/hal-aarch64/src/pagetable.rs:146-180 | it faults on every page without a valid descriptor |
| Mmu.ArmLeafBits | crates/hal-aarch64/src/pagetable.rs:52-91 | every field of a leaf descriptor, the memory attribute and shareability of device and other memory included |
| PageTable.Space.New | crates/hal-riscv64/src/pagetable.rs:201-204 | an empty table that accounts for all frames of the list; none exactly when the list is empty |
| PageTable.Space.Drop | crates/hal-riscv64/src/pagetable.rs:117-155 | every table frame and every owned page is freed exactly once and nothing else; all frames of the account are then free |
| PageTable.Lifetime | crates/hal-riscv64/src/pagetable.rs:117-253 | create, any commands with or without running out of memory, drop: the free list holds only what it held at the start, and as many, less exactly one for every page mapped with permissions that do not mark it owned |
| PageTable.LostNone | crates/hal-riscv64/src/pagetable.rs:117-253 | nothing is lost if and only if no such command succeeded |
| PageTable.Sv39Lifetime | crates/hal-riscv64/src/pagetable.rs:117-253 | the same for the Sv39 format, three levels and its address range |
| PageTable.ArmLifetime | crates/hal-aarch64/src/pagetable.rs:117-282 | the same for the ARMv8 format, four levels and its address range |
| PageTable.OwnedExactly | crates/hal-riscv64/src/pagetable.rs:54-155 | the bit tests of the drop take the entry made for a page as an owned one if and only if: on Sv39 user with read, write or execute, on ARMv8 user |
| PageTable.PageLost | crates/kernel/src/elf.rs:100-126 | on Sv39 with four free frames, mapping one user page without permissions and dropping the table leaves one frame fewer |
| PageTable.FrameAlloc.Pop | crates/kernel/src/kalloc.rs:45-52 | following the links takes the first frame of a list without repetition, none exactly when it is empty |
| PageTable.FrameAlloc.Push | crates/kernel/src/kalloc.rs:34-43 | the links then spell the list with the frame in front |
| DiskQueue.AllocThree | crates/kernel/src/driver/virtio_blk.rs:274-296 | three free descriptors taken, or fewer than three were free and none is |
| DiskQueue.FreeChain | crates/kernel/src/driver/virtio_blk.rs:298-315 | terminates and frees exactly the three descriptors of the chain |
| DiskQueue.FreeCounts | crates/kernel/src/driver/virtio_blk.rs:274-315 | 8, 5 or 2 descriptors are free |
| DiskQueue.WrapAround | crates/kernel/src/driver/virtio_blk.rs:440-521 | 16-bit ring indices stay right across their wrap (section 2.6 of VIRTIO 1.1) |
| DiskQueue.Disk.Submit | crates/kernel/src/driver/virtio_blk.rs:412-480 | a request gets three descriptors that no request in flight has, which say what the caller asked for, and is last in the ring; or fewer than three were free and nothing changes |
| DiskQueue.Disk.DeviceTake | crates/kernel/src/driver/virtio_blk.rs:412-480 | a device that reads the oldest chain by the standard (section 5.2.6 of VIRTIO 1.1) reads the sector, buffer and direction that were asked for |
| DiskQueue.Disk.DeviceAnswer | crates/kernel/src/driver/virtio_blk.rs:412-480 | what it then does to disk and memory is what was asked for, and its status goes to the byte of that request |
| DiskQueue.Disk.OnIrq | crates/kernel/src/driver/virtio_blk.rs:502-521 | flags exactly the requests answered since the last drain, whatever the order of answers |
| DiskQueue.Disk.Poll | crates/kernel/src/driver/virtio_blk.rs:399-410 | a task gets past exactly when the device has answered its own request and the interrupt handler has seen it |
| DiskQueue.Disk.Finish | crates/kernel/src/driver/virtio_blk.rs:482-495 | its three descriptors are free again, and no others; success exactly when the device answered that request with status 0 |

## Findings

- `log_write` tests for a full log before it looks for the block in it (crates/kernel/src/fs/log.rs:175-190). A write
  to a block that is recorded already, which needs no room, is refused when the log is full. `LogFull.RecordedWriteRefused`
  is such a run from power-on; `CrashSafety.AssertionsOverRuns` shows that this is the only assertion of the log
  that can fail, and exactly when.
- On Sv39 a user page without read, write and execute permission looks like a pointer to a table, so `unmap_page` and the
  drop pass it by (crates/hal-riscv64/src/pagetable.rs:60-62). A program header with flags 0 gives such pages
  (crates/kernel/src/elf.rs:110-126, 159-171). `PageTable.OwnedExactly` gives the exact condition, `PageTable.Lifetime` the
  exact number of frames lost, `PageTable.PageLost` an input on which one is.
- Addresses of 2^48 and above lose their high bits in an ARMv8 entry (crates/hal-aarch64/src/pagetable.rs:46), and of 2^56
  and above in an Sv39 one (crates/hal-riscv64/src/pagetable.rs:63-65); `PageTable.MappedMeaning` has the exact condition.
- A user page mapped for writing and not for reading has an encoding that Sv39 reserves: the hardware faults on every
  access, while `translate` shows the page writable. A program header with the write flag alone gives such pages
  (crates/kernel/src/elf.rs:159-171, crates/hal-riscv64/src/pagetable.rs:82-99). `Mmu.Sv39Means` has the exact condition,
  `Mmu.WriteOnlyFaults` the case.
- `writei` that returns 0 may have taken blocks and linked index blocks into the inode in memory, while the inode table on
  disk is not updated (crates/kernel/src/fs/inode.rs:455-492). `FileOps.FileSystem.Writei` gives the exact condition: it
  returns 0 when fewer blocks are free than the first block of the range lacks, and changes the tree when any is free.
  `DiskFull.ZeroWriteTakesBlock` is such an input. The file's bytes do not change, and after a crash a mount shows the same
  bytes (`FsCrash.MountsGood`), but blocks the table does not lead to stay marked.
- An operation that is not the last of its group returns from `end_op` before its writes are committed
  (crates/kernel/src/fs/log.rs:192-215). `CrashSafety.EndCommits` gives the exact condition at the return,
  `CrashSafety.IdleIsDurable` at every point; `LogFull.EndedWriteLost` is a run from power-on that loses the write.

## Left out

- Inode cache: `try_iget`, `ialloc`, reference counts, `iput` and the reaper; the assertion on loading that an inode has a type.
- FsCrash.FilesSurvive: the operations of the history come one after the other, as `FsCrash.Perform` runs them; other tasks may fill the cache meanwhile, but log nothing between their writes.
- FsCrash.Perform: creating and removing files is not among the commands.
- FileOps.FileSystem.Writei: one operation runs as one step; what holds between its awaits is stated in BlockSharing, where contents are opaque and a task's own order of steps is given by guards.
- FileOps.FileSystem.ItruncTo: likewise; callers cap the size, so the overflow of its rounding in 32 bits is not modelled.
- BlockSharing.Isolated: contents of blocks are opaque; only who changes them is stated.
- BlockSharing.StepKeepsInv: `Release` is guarded by the task having put its blocks away and cleared what it gave up, which the sequential contracts promise.
- Wakeups.StepKeepsInv: `Spawn`, `Pop` and `Complete` each join lock sections of one hart.
- Wakeups.NoLostWakeups: progress is not claimed; pipes, poll, input and sockets are not among the waits.
- PathOnDisk.Namex: the file system does not change during a walk; inode types and which bytes are valid UTF-8 are given functions; link texts hold no NUL.
- Mmu.Sv39Means: accessed and dirty bits are left to the hardware; SUM and MXR are off; ASIDs and the TLB are not modelled.
- Mmu.ArmMeans: privileged-access-never and write-execute-never are off; the TLB is not modelled.
- PageTable.FrameAlloc.Pop: the links of the free list are kept beside the frames, not in them.
- Mkfs.RoundTrip: the superblock, the inode table and directories of an image are not built.
- LogCode.LogState.Recover: its reads and writes run without the cache; the steps of `WriteAheadLog` have it.
- LogCode.LogState.Commit: the reads and writes of a commit run without the cache; the interleaving with cache traffic is in `LogCode.CommitFollows`.
- DiskQueue.Disk.DeviceAnswer: a sector is one value; the device does a request in one step, and leaves memory alone on failure.
- Directory.Dir.Run: `.` and `..`, link counts and rename.
- Registers, interrupt controllers, assembly, boot code, drivers other than the block device, the network and user programs.
- Memory ordering weaker than sequential consistency; deadlock and fairness.
