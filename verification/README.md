# xv6 in Dafny

A model of the parts of the x86 teaching kernel xv6, and of two of its user programs, that carry
state or logic worth proving, with proofs over all inputs and all runs.

- `LogProtocol`, `LogGuard`: the redo log as a transition system over any interleaving of file system
  operations, with a crash possible between any two block writes and inside recovery. `Log`: the same
  code as methods that copy blocks through the buffer cache, with the crash property stated for every
  disk state on the way, and each of these states shown to be one of a run of `LogProtocol`.
  `LogFormat` is the header on the disk and what an image recovers to. `LogAdmission`: who waits in
  begin_op, who wakes them, and who commits.
- `BufferCache`: the ring of buffers, the claim that readers cannot tell it is there, and least recently
  used recycling.
- `FsState`, `Bitmap`, `FileSys`, `FileWrite`, `Mkfs`: block allocation, direct and indirect mapping,
  files as byte sequences, the number of blocks a transaction may log, and the image that mkfs builds.
  `FileCrash`: a file write through the log, and the files that a machine finds after a crash in it.
  `RootLookup`: names in that image's root directory.
- `Links`: directories, names and link counts. `Swap`: swap slots.
- `Paging`, `Vm`: page frames, two-level page tables as in section 4.3 of the Intel 64 and IA-32
  Architectures Software Developer's Manual, Volume 3A, how many pages each call takes, and the paths
  on which memory runs out. `AddressSpaces`: any sequence of sbrk, fork and exit over these.
- `ProcTable`, `Scheduling`: the process table's loops, and scheduling, fork, exec, exit and wait on
  any number of CPUs. `SlotHistory`: who is asleep and who is marked killed, told from the steps taken.
- `Wakeups`: sleep, wakeup and kill for any channels and conditions, one store at a time. Its users
  here are `SleepLock`, `PipeProtocol` (who sleeps on a pipe) and `LogAdmission`. `Pipe`: the bytes.
- `Heap`: the allocator of section 8.7 of The C Programming Language, 2nd edition.
- `ShellGrammar`, `ShellParser`: the shell's parser. `Matcher`: grep's matcher.

Where the source updates state in place the model is a class, an array or a transition system; a panic
is a result that says so, or a step that cannot be taken. Constants are those of `param.h`, `fs.h`,
`mmu.h`, `memlayout.h`, `sh.c` and `pipe.c`.

Places where the code does less than its comments or its callers suggest are stated exactly:

- `log_write` tests the log's size before it takes `log.lock`, so two callers can pass together. At the
  interface of log.c, where an operation may log any MAXOPBLOCKS blocks, this is harmless if and only
  if the log has more than LOGSIZE blocks (or no slot at all), and mkfs makes it exactly LOGSIZE. The
  run that shows it logs ten distinct blocks in each of three operations; a file write on mkfs's image,
  which has one bitmap block, logs about seven.
- `begin_op` keeps MAXOPBLOCKS log entries for each operation. They are there if and only if the log has
  more than LOGSIZE blocks; in mkfs's log three operations within their limit can meet the panic.
- A commit needs one buffer that is not pinned. A log with LOGSIZE blocks in it pins all NBUF buffers,
  and then the commit panics; mkfs's log, of LOGSIZE blocks with its header, holds one less.
- A writer that is killed while a pipe is full returns without waking readers. A reader stays asleep on
  a non-empty pipe if and only if the writer was killed, a reader slept, and the bytes did not fit.
- `create` and `link` in a directory that has itself been removed break the link counts, always; they
  keep them if and only if the directory is linked.
- `growproc` frees every page of a process that gives back exactly its whole size, and then reports
  failure and keeps the old size; a later fork panics if memory lasts. Nothing else separates size
  and pages.
- `kill` does not look at the state of the slot whose pid it finds. A slot is marked killed if and only
  if a kill has hit it since it was last reaped; `kill(0)` hits one that nobody uses, and the next
  process in it starts out marked.
- `malloc` of 2^31 bytes or more, header included, hands sbrk, which takes an int, a negative number or
  zero, or serves a block that is too small; below that it does what it should. sbrk then gives no
  memory and still reports success, unless the process is empty or gives back exactly its size.
- mkfs rounds the root directory's size up, which leaves a hole if and only if it was a block multiple.

## Model

| member | source | states |
|---|---|---|
| LogFormat.HeaderRoundTrip | log.c:84-113 | the log header that write_head encodes decodes, in read_head, to the same count and the same list of home blocks |
| LogProtocol.SpaceKept | log.c:124-141 | every step keeps: entries in the log plus the blocks that running operations have reserved and not used are at most LOGSIZE |
| LogProtocol.WholeOpsKept | log.c:143-174 | every step keeps: the committed updates are those of complete operations |
| LogProtocol.RunInv | log.c:124-233 | every state of every run, over any interleaving of operations, cache fills and evictions, block writes and crashes, satisfies the space, data and whole-operation invariants |
| LogProtocol.CrashAtomicity | log.c:192-202 | after any run the disk recovers to the updates of some whole operations, in order: the committed ones and nothing of any other |
| LogProtocol.RecoveryOutcome | log.c:115-122 | after a crash at any moment and any number of crashes inside recovery, a completed recover_from_log leaves every home block with exactly the committed contents |
| LogProtocol.RestingHome | log.c:192-202 | when nothing is being committed, each home block holds all logged updates, on the disk and as bread returns it |
| LogProtocol.HomeStable | log.c:68-82 | a home block changes on the disk only in install_trans, under a committed header that names it, with no operation running |
| LogProtocol.NoLogPanic | log.c:143-174 | in a reachable state no operation finds a commit in progress, so end_op's and log_write's transaction panics cannot happen |
| LogProtocol.CommitIsDurable | log.c:143-174 | when the committing end_op returns, all that was logged is committed and no operation is left open |
| LogProtocol.CommittedNeverLost | log.c:115-122 | along any run the committed updates only grow; no crash takes one back |
| LogProtocol.MayLog | log.c:213-233 | in a log of more than LOGSIZE blocks, an operation that has logged fewer than MAXOPBLOCKS new blocks passes log_write's size test and can log, in every state of every run |
| LogProtocol.CacheUnseen | bio.c:58-93 | in every run the cache may take in any block or give up any clean one, and no read tells the difference |
| LogGuard.AlwaysGuarded | log.c:213-233 | with no data slot, or more than LOGSIZE log blocks, the size test made outside log.lock always suffices |
| LogGuard.Overrun | log.c:213-233 | otherwise a run of begin_op and log_write exists, with three operations that log up to ten distinct blocks each, in which two callers pass the test together and the log is written over the block behind it |
| LogGuard.OverrunDamages | log.c:213-233 | that run breaks crash atomicity |
| LogGuard.SizeTestIsEnough | log.c:213-233 | crash atomicity holds on all disks and all runs of begin_op, log_write and end_op if and only if the log has 1 block or more than LOGSIZE blocks; mkfs.c:25 makes it LOGSIZE |
| LogGuard.ReservationHolds | log.c:124-141 | an operation that begin_op lets in can log MAXOPBLOCKS blocks, on all disks and in all runs, if and only if the log has more than LOGSIZE blocks; with LOGSIZE, as mkfs makes it, log_write panics in some run of three operations that keep to their limit |
| Log.SlotsOnlyRecovers | log.c:176-190 | while only log slots change under an empty header, the disk recovers to its own home blocks |
| Log.PartlyInstalledRecovers | log.c:68-82 | under a full header, however many blocks are installed, the disk recovers to the same contents |
| Log.CommitPoint | log.c:98-113 | the one header write turns a disk that recovers to the old contents into one that recovers to the new |
| Log.Log.WriteLog | log.c:176-190 | each slot gets the cached contents of its block; at every disk state on the way only slots differ; the writes are the LogBlock steps of LogProtocol; it fails only if at most one buffer can be recycled, and none if the logged blocks are pinned, and it does fail if there is none for the first slot |
| Log.Log.WriteHead | log.c:98-113 | exactly one block write, of the encoded header; it fails exactly when there is no buffer for the header block, and then writes nothing |
| Log.Log.InstallTrans | log.c:68-82 | each home block gets its slot; every disk state on the way is a partial installation; the writes are the InstallBlock steps of LogProtocol; it fails for want of buffers only, as in WriteLog |
| Log.Log.ReachCommitPoint | log.c:192-197 | up to and with the header write: after each block write the disk recovers to the contents before or after the transaction, and at the end to those after it |
| Log.Log.Commit | log.c:192-202 | after each single block write the disk recovers either to the contents before the transaction or to those after it; at the end the latter are home and nothing is pinned; the disk states are those of a run of LogBlock, WriteHead, InstallBlock and EraseHead steps of LogProtocol, from any protocol state with this disk, cache and list; with one buffer to recycle and the logged blocks pinned it succeeds, and with none for the first slot it fails |
| Log.Log.ReadHead | log.c:84-96 | the in-memory list becomes the one on the disk, whatever was cached; it fails exactly when there is no buffer for the header block |
| Log.Log.RecoverFromLog | log.c:115-122 | every disk state on the way recovers to the same contents, which are home at the end with an empty log; the disk states are those of a run of LogProtocol from its boot state through ReadHead to Idle; it succeeds whenever two buffers can be recycled, and fails if there is none for the header block |
| Log.Log.LogWrite | log.c:204-233 | the block is in the log once (absorption), its buffer is pinned, readers see no change; it fails exactly on the two panic conditions |
| Log.Log.TryBeginOp | log.c:124-141 | an operation that enters finds MAXOPBLOCKS log entries left for itself and for each one in progress, so at most three are; the first into an empty log is never turned away |
| Log.Log.EndOp | log.c:143-174 | an operation that leaves others running writes nothing; the last one commits atomically; the disk states are a run of LogProtocol after its Finish step; it fails as Commit does, and otherwise leaves as many buffers to recycle as it found |
| Log.FullLogStarves | log.c:176-190 | with LOGSIZE blocks logged, which takes a log larger than mkfs makes, all NBUF buffers are pinned and commit has none for the first block that it reads, so bget panics (bio.c:92); NBUF is LOGSIZE (param.h:11-12) |
| Log.SecondFails | log.c:68-82 | when one block is in hand and bread of a second fails, at most one buffer could be recycled before, and none if either block was pinned |
| Log.FollowedMore | log.c:176-202 | a block written as the protocol's next step says extends the run that the disk states follow |
| LogAdmission.RunInv | log.c:124-174 | in every run of any number of processes: log.outstanding counts those between begin_op and end_op, log.committing has one owner, and no wakeup of &log is owed when log.lock is released |
| LogAdmission.NoLostWakeup | log.c:124-174 | a process asleep in begin_op while the log would admit an operation is about to be woken by the holder of log.lock; with the lock free there is none |
| LogAdmission.IdleLog | log.c:143-174 | with no operation in progress and no commit, the log is empty and nobody is left asleep |
| LogAdmission.CommitsAlone | log.c:165-173 | while one process commits, no operation is in progress and no other process commits |
| LogAdmission.InsideATransaction | log.c:150-153 | end_op never finds a commit in progress, and log_write is always inside a transaction |
| LogAdmission.NeverBlocked | log.c:124-174 | with log.lock held the next statement can always run, but for waiting for ptable.lock; begin_op sleeps only when it owes no wakeup and the log admits nobody |
| LogAdmission.HoldsAdded | log.c:204-233 | in every run log.lh.n is exactly the number of blocks added since the last commit, and never above LOGSIZE |
| LogAdmission.CommitThenReport | log.c:165-173 | commit leaves an empty log, and log.committing stays set until its caller reports |
| BufferCache.PushedFront | bio.c:38-56 | linking a buffer in behind the head keeps the two-way ring, with that buffer first |
| BufferCache.Unlinked | bio.c:130-138 | unlinking a buffer keeps the two-way ring of the others |
| BufferCache.OneBufferPerBlock | bio.c:58-93 | two buffers that are referenced or valid never carry the same device and block |
| BufferCache.RecycleKeeps | bio.c:78-91 | giving a clean unreferenced buffer a new identity changes nothing that a reader sees |
| BufferCache.ModifyShows | bio.c:95-106 | a holder's change is what every later reader of that block sees, and no other block changes |
| BufferCache.WriteKeeps | bio.c:108-116 | writing a buffer through changes the disk and nothing that a reader sees |
| BufferCache.Cache.constructor | bio.c:38-56 | binit leaves one ring that holds every buffer once |
| BufferCache.Cache.Bget | bio.c:58-93 | one buffer for the block, found or recycled, never a dirty or referenced one, and then the last such one of the ring; no reader sees a change; fails only when all are in use |
| BufferCache.Cache.Fill | memide.c:38-60 | the synchronous read of a block into its buffer |
| BufferCache.Cache.Bread | bio.c:95-106 | a locked valid buffer with the latest contents of the block, as if there were no cache; none exactly when the block is not on the device, or is not cached while every buffer is referenced or dirty |
| BufferCache.Cache.Bwrite | bio.c:108-116 | exactly that block changes on the disk, the buffer is clean, no reader sees a change |
| BufferCache.Cache.Brelse | bio.c:118-141 | the buffer is unlocked; it is first in the ring if nobody refers to it any more, and the ring is otherwise in the same order |
| BufferCache.LeastRecentlyUsed | bio.c:130-141 | of the buffers that could be recycled, the last of the ring, which bget takes, is the one that was released longest ago |
| BufferCache.OrderedMore | bio.c:130-141 | moving a buffer to the front when it is released keeps the ring in the order of release |
| Bitmap.TestSet | fs.c:55-78 | setting one bit of the free map changes that bit and no other |
| Bitmap.TestClear | fs.c:80-95 | clearing one bit changes that bit and no other |
| FsState.OneSlot | fs.c:370-400 | a referenced block has exactly one referencing slot over all inodes, lies in the data area and is marked used |
| FsState.LinkOwned | fs.c:370-400 | filling an empty slot with a block just allocated keeps that |
| FsState.TruncatedOwned | fs.c:402-435 | emptying all slots of an inode and freeing exactly its blocks keeps that |
| FileSys.FileSys.Balloc | fs.c:55-78 | the lowest free block, zeroed and marked; none exactly when every block is marked |
| FileSys.FileSys.Bfree | fs.c:80-95 | unmarks the block, and panics exactly when it was not marked |
| FileSys.FileSys.Bmap | fs.c:370-400 | the block behind a file block, through the indirect block too; a missing one is allocated without changing any file byte; a present one changes nothing; it fails only past MAXFILE or with every block marked |
| FileSys.FileSys.Itrunc | fs.c:402-435 | frees exactly the blocks the inode owned, never panics, and leaves every other file's blocks and bytes alone; it logs exactly the inode's block and the blocks of the free map that have the freed bits, and changes no other block |
| FileSys.FileSys.Writei | fs.c:478-511 | the file's bytes become the old ones overwritten from off on, holes in it read as zeros; a file without holes gets none; the inode is written back; other files are unchanged; every block that changes is handed to log_write; errors exactly on the two range tests, and it stops only with every block marked and a block missing where it writes |
| FileSys.FileSys.Readi | fs.c:450-476 | returns the bytes from off up to the end of file; where no block is missing it allocates nothing and the state is unchanged, elsewhere only zeroed blocks are added and no file's bytes change; it stops only with every block marked and a block missing where it reads |
| FileSys.NewContents | fs.c:478-511 | block-wise writes across the direct and indirect range add up to one splice of the byte sequence |
| FileSys.DataLogBound | fs.c:478-511 | a write of at most three blocks' length touches at most four data blocks |
| FileSys.MapLogBound | fs.c:478-511 | in a file without holes such a write allocates in at most three blocks beyond the indirect one's |
| FileSys.TransactionBound | file.c:127-145 | a filewrite transaction logs at most MAXOPBLOCKS distinct blocks, even when every allocation hits another bitmap block |
| FileWrite.Filewrite | file.c:116-156 | the transactions that end_op has closed since the call are one for each chunk, each beginning where the last ended, with at most MAXOPBLOCKS blocks logged, every changed block among them, and the file's bytes after it the old ones with that many chunks over them; the bytes written are all of them if off is within the file and off + n within the largest file, else the whole chunks that fit there, and none if off is past the end; the result is n or -1 accordingly; other files are unchanged; it stops only with every block marked, past the end of the file |
| FileWrite.SplicedTwice | file.c:127-152 | writing in chunks is writing at once |
| FileCrash.WriteTransaction | file.c:140-145 | begin_op, one chunk of writei, end_op: the result and the offset are those of the chunk; after a crash at any block write of it the machine finds, once its log is recovered, every file as before or every file as after, each block with one owner; when it returns the bytes are on the disk and as many buffers can be recycled as before; it lacks buffers only if at most MAXOPBLOCKS could be when it began |
| FileCrash.WriteFile | file.c:116-156 | the whole of filewrite through the log: after a crash at any block write the machine finds the file with the first so many whole chunks of the bytes in it, or all of them, and every other file as it was; on return the disk holds what the result says, and the offset has moved by that much; it panics only as Filewrite does, or for want of buffers when it began |
| FileCrash.RecoversFinds | log.c:115-122 | a disk that recovers to an image of a file system gives back each file's bytes and one owner for each block |
| FileCrash.LoadContents | fs.c:285-312 | the files that the kernel reads from an image are those whose inodes, free map and data it holds |
| FileCrash.LoadOwned | fs.c:285-312 | and so are the owners of its blocks |
| FileCrash.InodeRoundTrip | fs.c:216-236 | the inode that iupdate stores in its block reads back as ilock reads it, and no other inode of the block changes |
| FileCrash.HandOver | log.c:204-233 | every block of the transaction is in the log once and pinned, readers see exactly those blocks changed, and the disk is as it was; it fails only if fewer than MAXOPBLOCKS buffers could be recycled |
| FileCrash.PatchedRep | fs.c:478-511 | an image with the blocks that writei handed to log_write replaced, and nothing else, is an image of the file system after the write |
| FileCrash.Settle | log.c:143-174 | the commit leads from one file system to the other: every disk state on the way gives back the one or the other, the last one the new |
| FileCrash.Mount | log.c:53-66 | on a recovered disk the next transaction can begin, with the files that the disk holds |
| Mkfs.LayoutValid | mkfs.c:93-103 | the layout that mkfs computes is one the kernel accepts |
| Mkfs.BitsMark | mkfs.c:237-251 | the bitmap marks exactly the blocks below the number used |
| Mkfs.Balloc | mkfs.c:237-251 | the loop that sets the bits builds that bitmap |
| Mkfs.Maker.Ialloc | mkfs.c:223-235 | a fresh empty inode of the type |
| Mkfs.Maker.Iappend | mkfs.c:255-297 | the file grows by exactly the bytes, other files keep theirs, every block keeps one owner; it takes exactly the blocks that the larger file needs more, the indirect one included, and succeeds exactly if the file is not too large and these are within the image |
| Mkfs.MissingIs | mkfs.c:268-294 | in a file without gaps, the blocks that one round of the loop allocates are those that the larger file needs more |
| Mkfs.Build | mkfs.c:110-165 | the finished image, root size rounded, satisfies the kernel's ownership invariant, the bitmap marks the blocks used, the root lists every file and every file holds its data; it succeeds exactly if no file is too large and the blocks of the files and of the root directory, added up from their lengths, fit behind the metadata |
| Mkfs.LayOut | mkfs.c:130-156 | the loop over the input files, what it leaves before the rounding, and exactly the same condition for it to succeed |
| Mkfs.RoundingHoles | mkfs.c:158-163 | rounding the root's size leaves no hole if and only if the size was not a block multiple |
| Mkfs.ReadBack | mkfs.c:255-297 | each file laid down by mkfs reads back unchanged through the kernel's readi, exactly if the files fit in the sense of Mkfs.Build |
| RootLookup.ReadByName | fs.c:522-548 | each file given to mkfs, looked up by its name in the root directory of the image and read, has its data, also when the directory ends in a hole and no block is free; for names that are C strings, the first of those that agree in DIRSIZ characters |
| RootLookup.Dirlookup | fs.c:522-548 | the inode number of the first entry in use with the name, missing exactly when there is none; it panics only on what is no directory or ends in part of an entry, or at a hole before the name with every block marked |
| RootLookup.RootMatches | mkfs.c:110-156 | the entries of the finished root directory that have a name are those of the files given with it, with their inode numbers, and of the dots |
| RootLookup.CmpIsCut | fs.c:516-520 | names are the same to strncmp if and only if they agree as far as DIRSIZ characters |
| Links.EmptyHasOneLink | sysfile.c:183-239 | the only link to an empty directory is its name, so unlink takes its count from 1 to 0 |
| Links.NamedIsLinked | sysfile.c:211-212 | an entry of a linked directory names an inode in use with at least one link, so the nlink panic cannot happen |
| Links.MadeGood | sysfile.c:269-278 | making a directory keeps: link counts equal the entries other than "." in linked directories, names are unique, each directory is named once, in its parent |
| Links.RemovedGood | sysfile.c:218-229 | removing an empty directory keeps the same |
| Links.ParentMustBeLinked | sysfile.c:241-283 | creating a file, a device or a directory in a directory without links always breaks the counts; for a directory because ".." gives the parent a link and no linked directory names it |
| Links.LinkLost | sysfile.c:144-164 | so does linking a file there |
| Links.CreateInRemoved | sysfile.c:241-283 | a run that does it: make a directory, remove it, create a file in it |
| Links.ReachesRoot | sysfile.c:269-278 | from every linked directory ".." leads to the root |
| Links.Namespace.constructor | mkfs.c:117-128 | the root as mkfs makes it satisfies the invariant |
| Links.Namespace.Dirlookup | fs.c:522-548 | finds an entry with the name if and only if there is one |
| Links.Namespace.Dirlink | fs.c:550-578 | refuses a name that is there; otherwise fills the first free entry or appends |
| Links.Namespace.IsDirEmpty | sysfile.c:167-181 | true exactly when no entry behind the first two is used |
| Links.Namespace.Create | sysfile.c:241-283 | the exact new table for a file, device or directory, in the first free inode, exactly when the name is absent and an inode is free; the existing file exactly when a file is wanted and the name is a file's; a refusal exactly when the name is there otherwise; no free inode; in these with nothing changed; the counts are right afterwards if and only if nothing was made or the parent is linked |
| Links.Namespace.BeginLink | sysfile.c:133-142 | refuses a directory; otherwise counts a link that no entry has yet |
| Links.Namespace.EndLink | sysfile.c:144-164 | the directory gains exactly that name, or the count is taken back; the counts are right afterwards if and only if it was taken back or the parent is linked |
| Links.Namespace.Unlink | sysfile.c:183-239 | succeeds exactly for a present name other than "." and ".." that is not a full directory; removes that name only; a removed directory has no links left; the counts stay right, also in a directory that is itself removed |
| Links.Namespace.Free | fs.c:324-352 | an inode without links is named by no linked directory when it is freed |
| Swap.SwapWrite | fs.c:690-704 | the eight blocks of the slot read as the page; no other block changes for any reader; other processes may hold other buffers; it fails only when a block is not on the device or no buffer can be recycled |
| Swap.SwapRead | fs.c:675-688 | the page the slot holds; no reader sees a change; it fails in the same cases only |
| Swap.RoundTrip | fs.c:672-704 | a page written to one slot and another page to a slot at least 8 away: reading the first slot gives the first page, and nothing fails if the slots are on the device and a buffer is to be had |
| Swap.SlotsApart | fs.c:672-704 | two slots are disjoint if and only if their numbers differ by at least 8 |
| Paging.MapGood | vm.c:57-80 | a user entry for a frame in hand keeps: every page has exactly one use, and every present entry points to a page of that use |
| Paging.TableGood | vm.c:32-55 | so does adding a zeroed page table |
| Paging.UnmapGood | vm.c:266-276 | so does clearing a user entry, whose frame goes back to the kernel |
| Paging.RetireGood | vm.c:281-298 | so does giving up a directory without user pages, with its tables |
| Vm.Memory.constructor | kalloc.c:45-53 | freerange puts every page on the free list, once |
| Vm.Memory.Kfree | kalloc.c:59-76 | the page becomes the head of the list; panics exactly outside the managed range; no mapping changes |
| Vm.Memory.Kalloc | kalloc.c:82-95 | the head of the list; none exactly when the list is empty |
| Vm.Memory.Walkpgdir | vm.c:32-55 | the table for the page; adds one only when asked and missing; fails exactly when missing and not asked, or out of memory; no entry of any directory changes |
| Vm.Memory.MapPage | vm.c:57-80 | one round of mappages: exactly that entry changes; panics exactly on remap; fails exactly when a table is missing and memory is out, changing nothing |
| Vm.Memory.Mappages | vm.c:57-80 | all pages of a kernel row are mapped; -1 exactly when there are fewer free pages than the row's directory entries without a table |
| Vm.Memory.Setupkvm | vm.c:117-136 | a directory with the kernel's rows and nothing else, exactly when there is a free page for it and for each table; otherwise nothing taken |
| Vm.Kmap | vm.c:105-115 | the four kernel rows are disjoint and above the user half |
| Vm.KernelHalf | vm.c:105-115 | a directory from setupkvm maps physical memory at KERNBASE on, the devices where they are and nothing else; no user may use any of it, and exactly the kernel's text is read-only |
| Vm.Memory.Allocuvm | vm.c:219-249 | with a free page for each new page and each missing table the process grows by zeroed pages of its own; with fewer the result is 0 and every mapping is as before |
| Vm.Memory.Deallocuvm | vm.c:251-279 | exactly the user pages in the range are unmapped and free |
| Vm.Memory.Freevm | vm.c:281-298 | exactly what the directory owned is free again; no other directory's entries or pages change |
| Vm.Memory.Copyuvm | vm.c:313-345 | the child has the parent's bytes and flags for every page below sz, in frames of its own, and the parent is unchanged; 0, with the same pages free as before, exactly when there are too few free pages; a panic exactly when a page below sz is missing and memory lasts up to there |
| Vm.RanOut | vm.c:219-345 | a call that has spent what it needs so far and lacks the next page or table lacks what it needs in all |
| Vm.KmapTables | vm.c:105-115 | the kernel's rows take exactly 64 tables, wherever its data section begins |
| Vm.ForkCost | vm.c:313-345 | a copy of n pages takes exactly 65 + n pages and one for each 4 megabytes begun |
| AddressSpaces.Processes.Run | proc.c:157-176 | over any sequence of new processes, sbrk, fork and exit, failed ones included, every page has exactly one use and none is lost: it is free, or a directory, table or user page of one process; copyuvm does not panic unless some process was shrunk to size 0 |
| AddressSpaces.Processes.Growproc | proc.c:157-176 | the size and the pages change as asked or not at all, success exactly when the pages suffice; but a process that gives back its whole size loses its pages, keeps the old size and is told -1, and this is the only way to lose them |
| AddressSpaces.Processes.ForkProcess | proc.c:181-200 | a child with as many pages, exactly when memory suffices and the parent has its pages; a panic exactly when the parent lost them and memory lasts |
| AddressSpaces.Processes.ExitProcess | proc.c:288-300 | exactly the pages of that process are free again |
| AddressSpaces.ShrinkThenFork | proc.c:169-172 | a run that panics: sbrk of one page, sbrk of minus one page, fork, with 132 free pages |
| AddressSpaces.LargeRequest | sysproc.c:45-57 | for a request of 2^31 bytes or more, header included, that does not wrap, sbrk as morecore calls it never grows the process, and reports success unless the process had no memory or gives back exactly its whole size |
| AddressSpaces.AllGone | proc.c:288-300 | when the last process is gone every page is on the free list |
| ProcTable.Wakeup1 | proc.c:458-466 | exactly the sleepers on the channel become RUNNABLE, and nothing else of any slot changes |
| ProcTable.ExitLocked | proc.c:251-267 | the process a ZOMBIE; every child of it has init as parent; exactly the sleepers on its parent's slot, and those on init's if a child of it is a zombie, are woken; nothing else changes |
| ProcTable.ExitChanges | proc.c:251-267 | the same of the table as a value, slot by slot |
| ProcTable.ScanChildren | proc.c:282-302 | the first zombie child, or else whether there is a child |
| ProcTable.Kill | proc.c:480-498 | the first slot with the pid is marked killed, is RUNNABLE if it was SLEEPING and otherwise in its old state, and nothing else of it or of any other slot changes; fails exactly when no slot has the pid |
| ProcTable.KilledAt | proc.c:480-498 | the same of the table as a value, slot by slot |
| ProcTable.FindUnused | proc.c:79-86 | the first UNUSED slot, or none if there is none |
| Scheduling.RunInv | proc.c:323-383 | every state of every run, with any number of CPUs and slots, satisfies the thread, family, sleeper, pid and page invariants |
| Scheduling.ThreadsKept | proc.c:323-453 | every step keeps what a CPU's registers and c->proc, the lock and the process states say about each other |
| Scheduling.FamilyKept | proc.c:181-313 | every step keeps the relations of parents, children and slots under construction |
| Scheduling.SleepersKept | proc.c:228-313 | every step keeps: no sleeper in wait has a zombie child |
| Scheduling.PidsKept | proc.c:73-116 | every step keeps pids of used slots distinct and accounts for each exited pid |
| Scheduling.PagesKept | proc.c:288-300 | every step keeps: each allocated page is the stack or directory of exactly one slot |
| Scheduling.ReplacePages | exec.c:96-103 | swapping in a new page directory, loading it, and only then freeing the old one keeps that |
| Scheduling.SchedulerSafety | proc.c:323-383 | whenever ptable.lock is free, a process is RUNNING if and only if a CPU has it as c->proc, and then only one |
| Scheduling.FreesNothingLoaded | proc.c:288-300 | in every state each CPU's stack and page directory are allocated, and no step of wait, fork or exec frees one that a CPU uses |
| Scheduling.ParentsLive | proc.c:256-263 | every process past EMBRYO except init has a parent that is neither UNUSED, EMBRYO nor ZOMBIE |
| Scheduling.NoZombieUnnoticed | proc.c:253-311 | no process asleep in wait has a zombie child |
| Scheduling.ReturnedOnce | proc.c:271-313 | each exited pid is returned by at most one wait, and until then is held by a zombie |
| Scheduling.NoPanic | proc.c:366-383 | sched holds the lock and the state is not RUNNING; release is by the holder; switchuvm finds a stack and a directory; an exited process never returns from sched |
| SlotHistory.MarkedExactly | proc.c:480-498 | in every run a slot is marked killed if and only if a kill of its pid has hit it since a wait last reaped it |
| SlotHistory.KillMarks | proc.c:480-498 | after a kill in any run the process it names is marked, and RUNNABLE if it was asleep; nothing else of it changes |
| SlotHistory.BornUnmarked | proc.c:73-116 | if kill only ever finds a slot while a process has it, a new process in it starts unmarked |
| SlotHistory.BornKilled | proc.c:480-498 | otherwise not: a run in which kill(0) finds an unused slot, whose pid is 0, and the next fork's child is marked killed |
| SlotHistory.AsleepExactly | proc.c:416-498 | in every run a process is asleep on a channel if and only if it has called sleep on it, in wait on its own slot, and neither a wakeup of that channel nor a kill of it has come since; so wakeup leaves none of its sleepers asleep and wakes nobody else |
| SlotHistory.CanBeRun | proc.c:323-358 | whenever ptable.lock is free and a CPU is idle, five steps of that CPU get any RUNNABLE process to run on it, and no other slot changes |
| SlotHistory.NeverStuck | proc.c:323-383 | in every state of every run the CPU that has ptable.lock can go on, so the lock is never kept for good; with the lock free every CPU can, also with an interrupt that wakes sleepers |
| SlotHistory.WaitGoesOn | proc.c:271-313 | in wait's loop always exactly one of three can happen: the first zombie child is reaped if there is one; else the call gives up, if there is no child or it was killed; else it sleeps |
| SlotHistory.CallsOpen | proc.c:73-116 | a process that has taken ptable.lock can make every call; allocproc takes the lowest UNUSED slot and fails exactly when there is none, and exit is refused exactly to init |
| SlotHistory.AlwaysTidy | proc.c:416-453 | in every run p->chan is set if and only if the process is inside sleep, and an UNUSED slot has no kernel stack |
| SlotHistory.ReapedIsGone | proc.c:288-300 | once wait has returned a pid, no slot has it, then or later, so a kill of it finds nothing |
| SlotHistory.CallsEnd | proc.c:181-313 | each step of a call with ptable.lock held, of fork after its first, and of exec after its first brings that call nearer to its end |
| Wakeups.InvKept | proc.c:416-498 | every step of sleep, wakeup and kill, and every store under a lock, keeps: who sleeps on a channel whose condition is true has a wakeup coming, unless one was forgotten |
| Wakeups.NoLostWakeup | proc.c:416-475 | in every run over any number of processes, spinlocks and channels, where a condition changes only under its lock: who sleeps on a true condition whose wakeup was not forgotten is about to be found by the holder of the lock; with the lock free there is none |
| Wakeups.NothingLapses | proc.c:468-475 | in a run that never releases a lock while it owes a wakeup, no wakeup is ever forgotten |
| Wakeups.AsleepExactly | proc.c:416-498 | in every run a process is asleep if and only if it has gone to sleep and since then neither the loop of a wakeup of its channel has come to its slot nor a kill has hit it |
| SleepLock.RunInv | sleeplock.c:22-42 | the invariant behind the rows below holds in every state of every run of any number of processes |
| SleepLock.Refines | sleeplock.c:22-42 | every step of acquiresleep, releasesleep and kill is a step of Wakeups, or none, with the condition that the lock is not locked |
| SleepLock.MutualExclusion | sleeplock.c:22-42 | at most one process is between acquiresleep and releasesleep, and lk->pid names it |
| SleepLock.HoldingSleep | sleeplock.c:44-53 | locked with this pid if and only if this process holds the lock; a pid is set if and only if it is locked |
| SleepLock.NoLostWakeup | sleeplock.c:22-42 | a process asleep on an unlocked lock has a waker pending that still holds the spinlock; with that spinlock free there is no such process |
| SleepLock.NeverStuck | sleeplock.c:22-42 | unless someone holds the lock, whoever is inside acquiresleep or releasesleep can go on |
| SleepLock.CanLock | sleeplock.c:22-33 | a process that asks for a free lock gets it in four steps, with its pid in it |
| SleepLock.CanUnlock | sleeplock.c:35-42 | releasesleep can run to its end, and then the lock is free, its pid is clear and nobody is asleep |
| Pipe.FullTest | pipe.c:85-106 | the full and empty tests on wrapped 32-bit counters agree with the true counts |
| Pipe.PutHolds | pipe.c:93-94 | storing a byte at nwrite % PIPESIZE keeps every unread byte in its place |
| Pipe.Channel.Write | pipe.c:77-98 | the bytes put in are appended to the stream; it stops only when full; nobody sleeps for room unless the pipe is full and readable; a reader is left asleep on a non-empty pipe if and only if the writer was killed, a reader slept, and the bytes to write did not fit |
| Pipe.Channel.Read | pipe.c:100-121 | the bytes taken are the next ones of the stream, as many as there are up to n; it sleeps only when empty and writable |
| Pipe.Channel.Close | pipe.c:59-75 | afterwards nobody is asleep on the pipe; freed exactly when both ends are closed |
| Pipe.Channel.Kill | proc.c:480-498 | a killed sleeper runs again and the others are as before |
| Pipe.StrandedReader | pipe.c:85-89 | a run in which a killed writer leaves a reader asleep on a full pipe |
| PipeProtocol.RunInv | pipe.c:59-121 | the invariant behind the rows below holds in every run of any number of readers, writers and closers |
| PipeProtocol.NoLostWakeup | pipe.c:59-121 | a writer asleep while there is room or no reader is about to be woken by the lock's holder; so is a reader asleep while there are bytes or no writer, unless a writer has given up with bytes not announced and nobody has emptied the pipe or woken the readers since; that writer was killed or the read end is closed |
| PipeProtocol.SleepersWait | pipe.c:59-121 | with the lock free a sleeping writer faces a full pipe with a reader, and a sleeping reader an empty one with a writer, but for the same exception |
| PipeProtocol.OnlyByGivingUp | pipe.c:85-89 | that exception begins only with a writer that gives up with bytes it had put in and not announced |
| PipeProtocol.NeverBlocked | pipe.c:77-121 | with the lock held the next statement can always run, but for waiting for ptable.lock; who sleeps owes no wakeup and has to wait |
| PipeProtocol.Conserved | pipe.c:77-121 | in every run the pipe holds exactly the bytes put in and not taken out |
| PipeProtocol.CallAccount | pipe.c:77-121 | at every point of every call, the bytes it has moved and those still to move are the bytes asked for; so a write comes to its last wakeup only with all bytes in, and a read only with all taken or the pipe empty, and with none taken only at end of file |
| PipeProtocol.OpenUntilClosed | pipe.c:59-75 | each end is open if and only if nobody has closed it |
| PipeProtocol.CanEnter | pipe.c:59-121 | with the lock free, whoever is in no call can enter one |
| PipeProtocol.MarkedExactly | proc.c:480-498 | a process is marked killed if and only if a kill has found it |
| Heap.InsertSorted | umalloc.c:33-42 | joining a freed block with the neighbours it touches keeps the list in address order with no two chunks touching |
| Heap.InsertUnits | umalloc.c:33-42 | the free units grow by exactly the block |
| Heap.FreedLinked | umalloc.c:33-42 | the four header stores leave one ring through all chunks |
| Heap.Disjoint | umalloc.c:24-90 | live blocks overlap neither each other nor a free chunk |
| Heap.StopsAt | umalloc.c:30-32 | free's search can stop at one chunk only: the one before the block, or the last |
| Heap.Allocator.FindPlace | umalloc.c:30-32 | the search ends, at that chunk |
| Heap.Allocator.Free | umalloc.c:24-44 | exactly the block's units become free; no unit of another block is written |
| Heap.Allocator.Morecore | umalloc.c:46-61 | for a byte count that is an int, as sbrk takes one: the new memory becomes free units and a chunk fits the request |
| Heap.Allocator.Take | umalloc.c:75-84 | the block is cut from the end of the chunk, or is all of it |
| Heap.Allocator.Malloc | umalloc.c:63-90 | for a request whose units make fewer than 2^31 bytes: ends after at most one morecore; fails exactly when no chunk fits and sbrk fails; the block's units were free, and no other block is written |
| Heap.RequestFits | umalloc.c:69 | the number of units, computed with 32-bit wrap-around, is enough for the request, and sbrk, which takes an int, is asked for that much memory, if and only if the units make fewer than 2^31 bytes |
| Heap.RequestFails | umalloc.c:52-54 | for every larger request the block would be too small, or sbrk is asked for nothing or for a negative amount |
| Heap.HalfOfMemory | umalloc.c:54 | 2^31 bytes is such a request: nothing wraps, and sbrk is asked for a negative amount |
| Heap.Allocator.Sbrk | umalloc.c:53 | memory that the program takes for itself between two requests belongs to no chunk and no block |
| Heap.Allocator.Store | umalloc.c:24-90 | a program that writes into its block changes no other block and no header |
| ShellGrammar.ReadsExactly | sh.c:344-446 | the grammar reads a token sequence to the end as a tree if and only if it is a command line, with redirections anywhere in a command and at most nine words in each, that stands for that tree |
| ShellGrammar.ReadLine | sh.c:344-359 | a written list reads as the tree it stands for |
| ShellGrammar.ReadAmps | sh.c:350-353 | any number of & puts a pipeline in the background that often |
| ShellGrammar.ReadPipeline | sh.c:361-372 | a written pipeline reads as its tree |
| ShellGrammar.ReadCommand | sh.c:399-446 | a written command or block reads as its tree |
| ShellGrammar.ReadArgs | sh.c:429-442 | words with redirections between them read as the arguments and the redirections, each in order |
| ShellGrammar.ReadRedirs | sh.c:374-397 | redirections read as what they stand for: < as input, > and >> as output |
| ShellGrammar.LineWritten | sh.c:344-359 | whatever reads as a list is written so |
| ShellGrammar.PipelineWritten | sh.c:361-372 | whatever reads as a pipeline is written so |
| ShellGrammar.CommandWritten | sh.c:399-446 | whatever reads as a command or block is written so |
| ShellGrammar.LineIs | sh.c:344-446 | every tree of at most nine words per command is what some line stands for |
| ShellParser.GetToken | sh.c:265-308 | the next token, where it begins and ends, and the position behind it |
| ShellParser.Peek | sh.c:310-320 | whether the next token begins with one of the characters; only white space is skipped |
| ShellParser.ParseRedirs | sh.c:374-397 | agrees with the grammar, failing exactly when it does |
| ShellParser.ParseSimple | sh.c:426-446 | agrees with the grammar, including the limit on arguments |
| ShellParser.ParseExec | sh.c:415-446 | agrees with the grammar |
| ShellParser.ParseBlock | sh.c:399-413 | agrees with the grammar |
| ShellParser.ParsePipe | sh.c:361-372 | agrees with the grammar |
| ShellParser.ParseLine | sh.c:344-359 | agrees with the grammar, and ends on every line |
| ShellParser.NulTerminate | sh.c:448-493 | a NUL behind every word and no other change |
| ShellParser.TreeCut | sh.c:448-493 | then the C string at each word's start is that word |
| ShellParser.ParseCmd | sh.c:327-342 | accepts exactly the lines that are such a command line typed with white space where it is needed and anywhere else; the tree, with the strings it points to in the cut-up line, is the one that command line stands for |
| ShellParser.AcceptsExactly | sh.c:265-372 | the same of the line as a value, both ways |
| ShellParser.LexReads | sh.c:265-308 | tokens typed with any white space that keeps them apart are read back as themselves |
| ShellParser.LexWritten | sh.c:265-308 | every line is its tokens typed so |
| ShellParser.RoundTrip | sh.c:327-372 | every tree of at most nine words per command, written with the parentheses it needs and typed with any white space, parses to itself |
| Matcher.Match | grep.c:72-82 | true exactly when some position of the text satisfies the pattern's meaning |
| Matcher.MatchHere | grep.c:84-96 | true exactly when the text at this position satisfies it |
| Matcher.MatchStar | grep.c:98-106 | true exactly when some run of the character is followed by the rest |
| Matcher.SplitFirst | grep.c:84-106 | an accepted text splits into a part for the first item and an accepted rest |
| Matcher.JoinFirst | grep.c:84-106 | and such parts join to an accepted text |

## Left out

- Hardware: disk registers, interrupt controllers, keyboard, display, serial line, boot code, assembly. The disk completes every transfer without error.
- Weak memory: each store and each lock operation is one sequentially consistent step.
- spinlock.c: pushcli, popcli and the nesting count ncli; a spinlock is its holder.
- FileSys.FileSys.Writei: the device driver that a write to a device file is handed to; the hand-over is reported as such.
- FileSys.FileSys.Iupdate: only the block's number is logged here; FileCrash.InodeRoundTrip has the packing, without the major, minor and link numbers, which keep their place in the block.
- FileCrash.WriteTransaction: other operations in the same commit, and other processes that hold a buffer of the device; the changed blocks go to log_write at the end of the transaction instead of one by one. A disk that fills up inside a chunk is a panic, before which nothing is written.
- FileCrash.HandOver: the same.
- FileCrash.WriteFile: the same.
- FileSys.TransactionBound: files with holes.
- The inode cache: iget, idup, ilock and iput's reference counts. Path walking: skipelem and namex.
- File descriptors: filealloc, filedup, fileclose. That a process asleep in a pipe call keeps its end open is a precondition of Pipe.Channel.Close and Pipe.Channel.Write.
- Log.Log.TryBeginOp: one pass of begin_op's loop; its sleep is in LogAdmission.
- Log.Log.Commit: waiting for a buffer of a logged block or of the log that another process holds; other buffers may be held. Changes of the cache by other processes while commit runs are in LogProtocol.
- Log.Log.EndOp: the same.
- LogProtocol.CrashAtomicity: runs in which log_write's size test is passed by two callers at once are excluded here and treated in LogGuard.SizeTestIsEnough.
- LogGuard.SizeTestIsEnough: operations that log fewer than MAXOPBLOCKS blocks by design, and layouts with fewer home blocks behind the log than the log has blocks.
- LogGuard.ReservationHolds: the same.
- Mkfs.Build: more than 198 input files, which the source does not check for.
- Mkfs.Maker.Ialloc: the link count, which the source sets to 1, and running out of inodes, which it does not check for.
- Links.Namespace.Create: directories that have reached the largest file size, and what later calls do after a creation in a removed directory.
- Links.Namespace.EndLink: the same.
- Links.Namespace.BeginLink: the 16-bit width of nlink.
- BufferCache.Cache.Bget: the width of refcnt.
- Vm.Memory.Mappages: one row of the kernel map at a time; user pages go through MapPage, which is one round of its loop.
- Vm: inituvm, loaduvm, clearpteu, uva2ka and copyout.
- AddressSpaces.Processes.Run: kernel stacks, which kalloc also provides, and exec's order of these calls.
- Scheduling.PidsKept: the 32-bit width of nextpid.
- Scheduling.SchedulerSafety: the order in which scheduler() scans the table; any RUNNABLE process may be chosen.
- ProcTable.Kill: the return value is modelled, the check for killed in trap() is not.
- Wakeups.NoLostWakeup: wait(), which sleeps with ptable.lock itself; it is in Scheduling.NoZombieUnnoticed. Conditions that change outside their lock.
- LogAdmission.NoLostWakeup: the blocks that are logged; commit() is one step.
- Heap.Allocator.Malloc: requests from 2^31 bytes on, header included; Heap.RequestFits, Heap.RequestFails and AddressSpaces.LargeRequest say what becomes of them.
- Heap.Allocator.Morecore: byte counts that are no int, as for Malloc; addresses above the 32-bit range; a program that gives memory back.
- ShellParser.ParseCmd: runcmd, and the text of the leftovers message.
- grep(): the line buffer around the matcher, which drops a partial line.
- Other user programs, usertests, the console and the build scripts: plumbing.
