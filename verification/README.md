# xv6 in Dafny

A model of the parts of the xv6 kernel and its user programs whose correctness rests on an
argument that spans several functions, with proofs that the argument holds. Each component is
one or a few modules. Code that works by updating fields, arrays and disks in place is a class
whose methods are proved against functions on values; protocols between processes, the disk and
crashes are transition systems, and the results about them hold for every run.

| component | modules | main results |
|---|---|---|
| write-ahead log | `RedoLog`, `LogDevice`, `GroupCommit`, `LogBudget`, `LogOverflow`, `ChunkRuns` | a crash at any write of a commit, followed by any number of crashes inside recovery, leaves all-old or all-new home blocks; over every interleaving of operations that newly log at most nine blocks each, log_write never panics, readers see the last contents asked to be logged, and the recovered disk is the replay of a prefix of what was asked, made of whole groups; with ten, a run panics and another overwrites the block after the log; filewrite's operations stay within nine |
| buffer cache | `BufferCache`, `BufferRing`, `Finite` | a block is in at most one buffer, and a reader finds what was last logged or written for the block it asked for; what is recycled was let go of earliest; installing a block keeps the counts right exactly when the block is pinned |
| page tables, page allocator | `PageTable`, `VmSpec`, `TearDown`, `UserMem`, `VmBytes`, `Vm` | three-level tables refine a flat map; every managed page is free, a table or one mapping's; by bytes, growing gives zeros exactly where a page starts between the sizes, shrinking takes exactly those pages, and fork copies every byte onto other pages; growth and fork fail only for lack of memory and then give everything back; tearing down returns each page once |
| file blocks | `Packing`, `FsSpec`, `FileData`, `Truncate`, `FileSystem`, `FileWrite`, `Mkfs` | readi and writei refine a byte sequence; every block they change is logged, but for one whose copy failed, so what commits is what readers see; set bitmap bits are exactly the metadata and the disjoint blocks of all inodes, from mkfs on; a filewrite chunk logs at most seven blocks |
| directories | `Links`, `Directories` | every link count is the number of names that count, on success and failure paths; a new name changes no lookup of a name that differs in its first 14 bytes; a name keeps the counts right exactly when its directory has links |
| process exit and wait | `ProcWait`, `ProcReap`, `WaitKids`, `ProcRecords`, `ProcLocks`, `InitAwake`, `InitWakeup`, `ExitDeadlock` | wait gives up exactly when the process is killed or childless; no process sleeps in wait with a zombie child, except init with an adopted one, exactly after one of three steps; the status given to exit is delivered once, to the parent; the locks cannot deadlock unless a process in exit has locked a parent it has lost, and then they can |
| pipes | `Pipe`, `PipeWait` | first in, first out through wrapping counters, of exactly the bytes that writers were given; nobody sleeps on a condition that holds, exactly unless a killed writer gives up |
| virtio disk queue | `Virtqueue`, `VirtioDisk` | descriptors are free or in one of two chains, each for the buffer and direction its thread was called with; no completion is missed or seen twice |
| allocator | `FreeRing`, `Umalloc` | free and live blocks partition what sbrk gave, with no two free neighbours; malloc takes the end of the first block that fits; both searches end |
| shell parser | `ShellGrammar`, `ShellLexer`, `Shell` | parsing undoes printing for every command tree, tokens lose nothing but white space, on every line the parser ends, and its C strings are the tokens |
| grep | `Grep` | the matcher decides a declarative reading of patterns; the line loop writes the matching lines however reads split the input, all of them exactly if every line fits the buffer |

Conventions. A class carries a ghost value of its whole state and `Valid()` ties the fields to it.
Locks are modelled by making what happens between acquire and release one step, or, in `ProcWait`
where several locks are held at once, by one step per acquire. What log_write tests before it takes
its lock is a step of its own. User memory that cannot be copied and the sizes of short reads are
parameters. A panic of the kernel is a value in a result, or a precondition where the model proves
that no caller breaks it.

Where the code and its comments disagree, the model follows the code. `log_write` tests its capacity
before it takes the lock and before it looks for an entry to absorb, so MAXOPBLOCKS (10) new blocks
an operation are one too many (`LogOverflow.FullBudgetCanPanic`, `LogOverflow.FullBudgetOverwrites`)
and nine are not (`LogOverflow.BudgetExact`). Recovery unpins buffers nobody pinned
(`BufferCache.InstallKeepsCountsExactly`). writei answers with the full length although a copy failed,
so filewrite may report bytes it has not written (`FileWrite.ReportExactly`,
`FileWrite.ReportsUnwritten`). init may sleep through a child it adopted (`InitAwake.AwakeExactly`,
`InitWakeup.InitMissesWakeup`). A process that locks the parent it had can deadlock with its own
descendants (`ProcLocks.CirclesAreStale`, `ExitDeadlock.ExitDeadlocks`). A killed writer may leave a reader asleep on a full pipe
(`PipeWait.StepAwake`, `PipeWait.ReaderStranded`). Names made in a removed directory are not accounted
for (`Links.CreateExactly`, `Links.MakeDirExactly`, `Directories.RemovedDirMiscounts`). An input line
of 1024 bytes or more ends grep (`Grep.OutputComplete`, `Grep.OverlongLost`).

`Finite` and `Common` hold what several components share.

## Model

| member | source | states |
|---|---|---|
| `RedoLog.ReadPutHeader` | kernel/log.c:85-113 | Reading a header block gives back the list of block numbers that was put into it. |
| `RedoLog.RecoverPrefix` | kernel/log.c:115-122 | A boot that crashes after any k of recovery's writes leaves a bootable disk with the same meaning. |
| `RedoLog.RecoverCompletes` | kernel/log.c:115-122 | A completed recovery puts the meaning into the home blocks and leaves an empty header. |
| `RedoLog.CrashingBootsKeepMeaning` | kernel/log.c:54-122 | Any number of boots that crash inside recovery keep the meaning of the disk. |
| `RedoLog.CommitPointMeaning` | kernel/log.c:192-202 | Right after the header write the disk means the old home blocks overlaid with the logged data. |
| `RedoLog.CommitTailIsRecovery` | kernel/log.c:192-202 | After the header write, commit issues exactly the writes that recovery would. |
| `RedoLog.CommitAtomic` | kernel/log.c:177-202 | Stopped after any j of its writes, commit leaves the old meaning if the header write has not happened and the new one if it has. |
| `RedoLog.CrashAtomicity` | kernel/log.c:68-122 | Commit stopped anywhere, then any crashing boots, then one that completes: every home block is old, or every one is new, according to the header write; the log is empty. |
| `LogDevice.Log.constructor` | kernel/log.c:54-65 | A new log is empty, with nothing pinned and no operation outstanding. |
| `LogDevice.Log.WriteLog` | kernel/log.c:177-190 | Issues exactly the copies of pinned blocks into log slots, in order. |
| `LogDevice.Log.WriteHead` | kernel/log.c:98-113 | One write: the header block with the in-memory list in it. |
| `LogDevice.Log.ReadHead` | kernel/log.c:85-96 | The in-memory list becomes the one on disk. |
| `LogDevice.Log.InstallTrans` | kernel/log.c:68-82 | Issues exactly the copies of log slots to home blocks, in order, and unpins everything. |
| `LogDevice.Log.RecoverFromLog` | kernel/log.c:115-122 | Issues exactly the writes of recovery on any bootable disk and leaves an empty log. |
| `LogDevice.Log.Commit` | kernel/log.c:192-202 | Issues exactly the writes the crash results speak of; afterwards home blocks hold the new data and the header is empty. |
| `LogDevice.Log.LogWrite` | kernel/log.c:213-234 | Fails exactly when its two panics fire; otherwise the block is absorbed or appended, and pinned with its new data. |
| `LogDevice.Log.TryBeginOp` | kernel/log.c:125-141 | One pass of the loop admits exactly when no commit runs and ten more blocks fit. |
| `GroupCommit.StepSized` | kernel/log.c:125-234 | Whatever operations log, no step leads to a state in which the next one is undefined, even when the list has outgrown the log. |
| `GroupCommit.StepKernel` | kernel/log.c:125-234 | Whatever operations log, each step keeps counters, sleepers, open operations and the commit in progress in agreement. |
| `GroupCommit.ReplayLast` | kernel/log.c:204-234 | In a replay the last log_write of a block is the one that counts, and a block never logged stays. |
| `GroupCommit.StepInv` | kernel/log.c:125-234 | Every step of any process, of a commit, a crash or a recovery keeps the invariant that ties the disk to the history, provided that no commit starts with more blocks than the log has slots. |
| `GroupCommit.HistoryAsAsked` | kernel/log.c:125-234 | In every run the history is what the steps of the run asked for: each log_write enters it with the block and contents it was called with, whether it is absorbed or appended. |
| `GroupCommit.CrashConsistency` | kernel/log.c:115-234 | After any run whose commits fit the log, with crashes anywhere, the history is what the steps asked for, and recovery gives the replay of a prefix of it at which no operation is open; when idle, of all of it. |
| `GroupCommit.ReadsSeeRequests` | kernel/log.c:145-234 | In the same runs, once recovery is over, a reader finds in every home block what was last asked to be logged for it, before, during and after commits. |
| `GroupCommit.DurablePrefixGrows` | kernel/log.c:145-202 | In every run what has become durable stays a prefix of what is durable later, through further crashes. |
| `GroupCommit.CommitIsExclusive` | kernel/log.c:125-234 | In every run, while a commit runs nobody can test, append or begin, and the panics on committing and outside a transaction never fire, although the latter is tested without the lock. |
| `GroupCommit.NoStrandedSleeper` | kernel/log.c:125-174 | In every run whoever sleeps in begin_op still has a reason to, and a commit or another operation will wake it. |
| `LogBudget.NoCapacityPanic` | kernel/log.c:125-234 | With a log of 30 blocks or more and at most nine new blocks an operation, no interleaving panics, the list never exceeds 28 entries, and a crash after any step is recovered from. |
| `LogBudget.ModestIsFrugal` | kernel/log.c:213-234 | An operation that logs at most so many different blocks newly lists at most so many, whatever others list meanwhile. |
| `LogOverflow.FullBudgetCanPanic` | kernel/log.c:213-221 | With ten new blocks an operation, any idle log can be brought to the panic of log_write. |
| `LogOverflow.FullBudgetOverwrites` | kernel/log.c:177-234 | With ten new blocks an operation, two processes can pass the tests together, and the commit then overwrites the home block after the log; no operation logged it, and recovery does not restore it. |
| `LogOverflow.BudgetExact` | kernel/log.c:125-234 | On mkfs's log, every run is free of panics, and every crash recovered from, if and only if operations may newly log at most nine blocks. |
| `ChunkRuns.ChunksNeverPanic` | kernel/file.c:148-175 | Any interleaving of operations that are filewrite chunks is free of panics, keeps the log within bounds and is crash consistent. |
| `BufferCache.StepInv` | kernel/bio.c:58-151 | Get, fill, modify, log, write, unpin and release keep the ring a permutation, blocks unique, counts right and contents in step with the store. |
| `BufferCache.StepRefinesStore` | kernel/bio.c:58-151 | Each step acts on a store without a cache as a plain write of the held buffer, or not at all: eviction loses nothing. |
| `BufferCache.ReadAgrees` | kernel/bio.c:92-103 | After any run a filled buffer holds what the store with pending log updates holds, and no other buffer has that block. |
| `BufferCache.ReadsLastWrite` | kernel/bio.c:58-151 | After any run, a holder that fills its buffer reads what the steps of the run last logged or wrote for the block it asked for, or else what was there. |
| `BufferCache.DropOrder` | kernel/bio.c:122-134 | A buffer whose count drops to 0 comes first in the ring and the others keep their order; nothing moves otherwise. |
| `BufferCache.LeastRecentlyUsed` | kernel/bio.c:74-87 | After any run, what bget recycles is, of the buffers nobody references, one whose last user let go of it earliest. |
| `BufferCache.InstallBalancedWhenPinned` | kernel/log.c:68-82 | On commit's path, installing a pinned block keeps the invariant, removes the pin and changes no reader's view. |
| `BufferCache.InstallKeepsCountsExactly` | kernel/log.c:68-82 | Installing a block, from the moment bget has returned its buffer, keeps the cache's invariant if and only if the block is pinned; recovery installs blocks that are not. |
| `BufferCache.RecoveryUnpinBreaksCounts` | kernel/log.c:73-81 | What follows when an unused home buffer is not pinned: its count wraps, and a later holder's buffer can be recycled under it. |
| `BufferRing.UnlinkKeepsRing` | kernel/bio.c:124-127 | Unlinking a buffer leaves a doubly linked ring of the others in the same order. |
| `BufferRing.PushFrontKeepsRing` | kernel/bio.c:128-131 | Inserting after the head puts the buffer first and keeps the rest. |
| `BufferRing.BCache.constructor` | kernel/bio.c:36-53 | All 30 buffers are on the ring, unused, as block 0 of device 0. |
| `BufferRing.BCache.Bget` | kernel/bio.c:58-89 | Returns the buffer of the block, or recycles the least recently used unused one; fails exactly when all are in use. |
| `BufferRing.BCache.Bread` | kernel/bio.c:92-103 | The returned buffer is locked, valid and holds the store's contents of the block; the caller waits, already counted, exactly when another process holds it. |
| `BufferRing.BCache.Bwrite` | kernel/bio.c:106-112 | Writes the held buffer to its block. |
| `BufferRing.BCache.Brelse` | kernel/bio.c:116-137 | Unlocks, drops the reference and moves a buffer that became unused to the front. |
| `BufferRing.BCache.Bpin` | kernel/bio.c:139-144 | Counts one more use and makes the block's new contents pending. |
| `BufferRing.BCache.Bunpin` | kernel/bio.c:146-151 | Decrements the count of any buffer; the cache stays valid on commit's path and does not when the block is not pinned. |
| `PageTable.WalkAgreesWithFlat` | kernel/vm.c:71-89 | The three-level walk of the hardware gives exactly the flat map's entry, or a fault where there is none. |
| `PageTable.MapLeafInv` | kernel/vm.c:148-168 | Adding a leaf keeps the tree of tables disjoint and every page accounted for. |
| `PageTable.UnmapLeafInv` | kernel/vm.c:173-195 | So does clearing one. |
| `VmBytes.PgUpIs` | kernel/riscv.h:326 | A page number is below a size rounded up exactly when the page starts below the size. |
| `VmBytes.GrewBytes` | kernel/vm.c:228-252 | Growing by fresh pages gives the user exactly the pages that start between the two sizes, readable, writable, executable and all zeros, and changes no byte of any space. |
| `VmBytes.GrowsDense` | kernel/vm.c:228-252 | A space whose every address below the old size is the user's has, once grown, every address below the new one, with its old bytes. |
| `VmBytes.CutBytes` | kernel/vm.c:258-270 | Shrinking takes away and frees exactly the pages that start between the two sizes and keeps every byte below the new one. |
| `VmBytes.CopyBytes` | kernel/vm.c:308-336 | After a copy, parent and child read the same byte with the same permissions at every address below the size, on different pages; nothing else is new and no byte has changed. |
| `VmBytes.MapsBytes` | kernel/vm.c:148-168 | Every address of a mapped range translates to the page of its physical address, and only pages that overlap the range are new. |
| `Vm.Machine.constructor` | kernel/kalloc.c:26-31 | Before kinit no managed page is free, a table or mapped. |
| `Vm.Machine.Kalloc` | kernel/kalloc.c:68-82 | The first free page leaves the list; 0 exactly when there is none. |
| `Vm.Machine.Kfree` | kernel/kalloc.c:46-63 | A page the caller owns goes to the front of the list. |
| `Vm.Machine.Freerange` | kernel/kalloc.c:33-40 | At boot every managed page becomes free. |
| `Vm.Machine.Walk` | kernel/vm.c:71-89 | Returns the last-level table of the address; without alloc nothing changes, with it at most two new empty tables appear, and 0 then means out of memory. |
| `Vm.Machine.Mappages` | kernel/vm.c:148-168 | Maps exactly the pages of the range, in order, until memory runs out; a success maps every address of it; every other page keeps its translation and flags. |
| `Vm.Machine.Uvmunmap` | kernel/vm.c:173-195 | Removes exactly the pages that start in the byte range and frees their memory if asked. |
| `Vm.Machine.Uvmcreate` | kernel/vm.c:199-208 | A new address space with no mappings on the first free page; every other page keeps owner and contents; 0 exactly when no page is free. |
| `Vm.Machine.Uvmalloc` | kernel/vm.c:228-252 | Every address from the old size, rounded up to a page, to the new one becomes the user's and reads zero, and no byte of any space changes; or it fails with every leaf page given back and every mapping as before, only with fewer than three free pages for each page asked for, and always for a size beyond MAXVA. |
| `Vm.Machine.Uvmdealloc` | kernel/vm.c:258-270 | Every byte below the new size stays; exactly the pages that start between the two sizes are unmapped and freed. |
| `Vm.Machine.Freewalk` | kernel/vm.c:274-290 | Frees every table page under a slot exactly once; the leaf panic cannot fire. |
| `Vm.Machine.Uvmfree` | kernel/vm.c:294-300 | Every page that belonged to the space is free; every other page keeps its owner and, unless it was free, its contents; every mapping of another space keeps its page and flags. |
| `Vm.Machine.Uvmcopy` | kernel/vm.c:308-336 | Every address below the size reads the same in child and parent, with the same flags, on fresh pages; or no leaf page and no mapping remains of the attempt, which takes fewer than three free pages for each page. |
| `VmSpec.ForkCopies` | kernel/vm.c:308-336 | After a successful copy each page below the size has the same bytes and flags in parent and child, and no page of the child is on a physical page of the parent. |
| `VmSpec.OtherSpaceKept` | kernel/vm.c:308-336 | Growing one space changes no page or mapping of another. |
| `TearDown.UvmfreeDone` | kernel/vm.c:274-300 | Unmapping and freewalk together return each page of the space once and change no owner, contents or mapping of another. |
| `Vm.Machine.Walkaddr` | kernel/vm.c:94-112 | The page behind an address exactly when it is mapped for the user. |
| `Vm.Machine.Copyout` | kernel/vm.c:354-374 | The bytes arrive page by page; -1 exactly when a page is not the user's. |
| `Vm.Machine.Copyin` | kernel/vm.c:379-399 | Returns the user's bytes in order; -1 exactly when a page is not the user's. |
| `UserMem.ReadBack` | kernel/vm.c:354-399 | What copyout wrote is what a read finds at each address, across pages. |
| `UserMem.ReadElsewhere` | kernel/vm.c:354-374 | Other addresses of the space keep their bytes. |
| `UserMem.SpacesIsolated` | kernel/vm.c:354-374 | A write to one space changes no byte of another. |
| `FsSpec.MarkUsedAt` | kernel/fs.c:64-86 | Setting a bitmap bit changes that bit alone. |
| `FsSpec.MarkFreeAt` | kernel/fs.c:89-103 | So does clearing one. |
| `FsSpec.SlotsDisjoint` | kernel/fs.c:377-405 | Under the ownership invariant no two slots of any inodes hold the same block. |
| `FsSpec.BitmapExact` | kernel/fs.c:64-103 | When no block is left without a slot, a bitmap bit is set if and only if the block is metadata or some slot of some inode holds it, and only one slot does. |
| `FileSystem.InodeBlockHolds` | kernel/fs.h:42-45 | The 64 bytes of an inode on disk are inside the block that is logged for it. |
| `FileSystem.LogsDurable` | kernel/log.c:204-234 | Committing the logged blocks gives the disk that readers see exactly when every changed block is logged. |
| `FileSystem.Files.constructor` | kernel/fs.c:41-47 | Takes over any image that satisfies block ownership. |
| `FileSystem.Files.FindFree` | kernel/fs.c:64-86 | The lowest clear bit, or none when all are set. |
| `FileSystem.Files.Balloc` | kernel/fs.c:64-86 | The lowest free block, marked and zeroed; no file changes; fails exactly when every bit is set. |
| `FileSystem.Files.Bfree` | kernel/fs.c:89-103 | Clears the bit of a block whose bit is set. |
| `FileSystem.Files.Bmap` | kernel/fs.c:377-405 | The block of a file block, allocated when missing; no file's bytes change, no allocated block is left without a slot, every changed block is logged, and only bitmap, indirect and that block are; fails only for a missing block with none free. |
| `FileSystem.Files.Itrunc` | kernel/fs.c:409-437 | The inode is empty, its blocks and no others are free, other files are unchanged and no block is left without a slot; every changed block and the inode are logged; the panic on freeing a free block cannot fire. |
| `FileSystem.Files.Readi` | kernel/fs.c:455-476 | Returns the slice of the contents from the offset, cut at the size, stopping early only at a chunk that could not be copied out; blocks it fills holes with are all in their slots and logged; panics only with no block free and one missing in the range. |
| `FileSystem.Files.Writei` | kernel/fs.c:482-514 | Rejects bad ranges untouched; otherwise writes the bytes that could be copied in and grows the size by whole chunks, stopping in the first chunk that could not; logs the inode, the block of every byte of those chunks and every block it changed but the one it stopped in, and nothing but blocks of the range, the bitmap and the inode; leaves no block without a slot; panics only with no block free and one missing in the range. |
| `FileData.ContentsSpliced` | kernel/fs.c:482-514 | After the bytes are stored and the size set, the file is its old contents with the data spliced in, cut at that size, and every other file is unchanged. |
| `Truncate.TruncInv` | kernel/fs.c:409-437 | Clearing exactly the bits of an inode's blocks keeps the ownership invariant and leaves no block without a slot. |
| `FileWrite.ChunkBudget` | kernel/file.c:148-175 | One chunk logs at most seven blocks when the bitmap is one block. |
| `FileWrite.SpliceTwice` | kernel/file.c:148-175 | Splicing two chunks one after the other is splicing their concatenation. |
| `FileWrite.Filewrite` | kernel/file.c:134-181 | The bytes of the chunks it got through are spliced in as far as they could be copied, all of them if all could; when it reports the whole length, the bytes are there exactly if all could be copied or the rest was there before; it stops, with -1, only at a chunk that does not fit or begins beyond the end after a failed copy; it panics only with no block free and one missing in the range, and then a prefix of the next chunk is in its blocks too; no block is left without a slot. |
| `FileWrite.ReportExactly` | kernel/file.c:157-175 | A write that went through all its chunks has happened if and only if every byte could be copied or the ones that could not were there before. |
| `FileWrite.ReportsUnwritten` | kernel/file.c:157-175 | One byte written over a different one from an unreadable address, in a block the file has: there is no panic, the answer is 1 and the file is unchanged. |
| `FileWrite.WriteOneOp` | kernel/file.c:158-166 | One chunk in one log operation, of which a prefix may be copied in, with at most seven blocks logged and the same ones missing as for writei; when all could be copied, what commits is the disk that readers see; panics only with no block free and one missing in the range. |
| `Mkfs.BitmapAt` | mkfs/mkfs.c:245-259 | The bitmap block mkfs writes has exactly its first bits set. |
| `Mkfs.Image.constructor` | mkfs/mkfs.c:93-116 | The empty image satisfies block ownership. |
| `Mkfs.Image.Ialloc` | mkfs/mkfs.c:231-243 | The next inode, of the given type and one link; nothing else changes. |
| `Mkfs.Image.Iappend` | mkfs/mkfs.c:263-305 | Appends the bytes to the file's contents, takes exactly the missing data blocks and indirect block from the free ones, and keeps block ownership. |
| `Mkfs.Image.FixRootSize` | mkfs/mkfs.c:166-171 | Rounds the root's size up without losing its contents. |
| `Mkfs.Image.Balloc` | mkfs/mkfs.c:245-259 | Writes the bitmap that makes the finished image satisfy the file system's ownership invariant, with every block in use in a slot. |
| `Mkfs.Mount` | mkfs/mkfs.c:166-175 | The finished image is a file system the kernel can run on, with every block in use in a slot and the same contents. |
| `Links.KeyExactly` | kernel/fs.c:518-522 | Two names are the same to the kernel exactly when they agree, in length and bytes, up to their first 14. |
| `Links.PutEnters` | kernel/fs.c:552-580 | A name put into an empty or new slot is found there by every name that equals it, and every other lookup answers as before. |
| `Links.ZeroErases` | kernel/sysfile.c:218-221 | Clearing the slot of a name, in a directory without duplicates, hides that name and what equals it from lookups and nothing else. |
| `Links.LinkInv` | kernel/sysfile.c:119-166 | One more name and one more link keep every count and every directory right. |
| `Links.CreateFileInv` | kernel/sysfile.c:241-284 | So does the first name of a new file or device. |
| `Links.MakeDirInv` | kernel/sysfile.c:262-280 | So does a new directory, with its dots and the parent's extra link. |
| `Links.DropInv` | kernel/sysfile.c:184-239 | So does removing a name of a file or device. |
| `Links.EmptyLinks` | kernel/sysfile.c:168-182 | An empty directory has exactly one link, its parent at least two. |
| `Links.RemoveInv` | kernel/sysfile.c:184-239 | Removing an empty directory leaves it without links and its parent with one less, as counted. |
| `Links.ReclaimInv` | kernel/fs.c:332-358 | Freeing an inode without links disturbs no count. |
| `Links.LinkExactly` | kernel/sysfile.c:119-166 | A new name for a file or device keeps every count right if and only if the directory it is put into has links. |
| `Links.DropExactly` | kernel/sysfile.c:184-239 | Removing the name of a file or device keeps them right under the same condition. |
| `Links.CreateExactly` | kernel/sysfile.c:241-284 | So does giving a new file or device its first name; made in a removed directory, it has a link that nothing accounts for. |
| `Links.MakeDirExactly` | kernel/sysfile.c:262-280 | So does making a directory: in a removed one the single link it gets back would be for its new child alone. |
| `Directories.Tree.constructor` | mkfs/mkfs.c:118-130 | The root alone satisfies the invariant. |
| `Directories.Tree.Lookup` | kernel/fs.c:524-550 | The first slot that holds the name's first 14 bytes, byte by byte, or none when no slot does. |
| `Directories.Tree.Dirlink` | kernel/fs.c:552-580 | Refused when the name is present; otherwise the first empty slot, or a new one, is filled, and lookups of all other names answer as before. |
| `Directories.Tree.Link` | kernel/sysfile.c:119-166 | Succeeds exactly for a non-directory, a found parent and a new name; then only lookups of that name change; every failure path leaves all as it was; counts stay right exactly unless the name goes into a removed directory. |
| `Directories.Tree.IsDirEmpty` | kernel/sysfile.c:168-182 | True exactly when no slot past the dots is in use. |
| `Directories.Tree.Unlink` | kernel/sysfile.c:184-239 | Removes exactly the name, so that only lookups of it change, or changes nothing for a dot, a missing name or a directory in use; the link-count panic cannot fire; in a removed directory there is nothing to unlink. |
| `Directories.Tree.Create` | kernel/sysfile.c:241-284 | Makes the inode and its name, so that only lookups of it change; or, for a name that exists, gives the file or device it names if a file was asked for, and refuses otherwise; counts stay right exactly unless something is made in a removed directory. |
| `Directories.RemovedDirMiscounts` | kernel/sysfile.c:241-284 | From mkfs's tree, make a directory, remove it, make a file in it: the file has a link that no linked directory accounts for. |
| `ProcWait.StepInv` | kernel/proc.c:259-447 | Every step of every process keeps the invariant on states, locks, parents and scans. |
| `ProcWait.FinishWakes` | kernel/proc.c:363-388 | When a process turns zombie, its parent is not scanning and not asleep in wait, unless it is init and adopted the process meanwhile. |
| `ProcReap.NoLostWakeup` | kernel/proc.c:306-447 | In every run a process asleep in wait has no zombie child, except init and a child that another process forked. |
| `ProcReap.ParentsLive` | kernel/proc.c:306-327 | In every run each process but init has a parent that is neither freed nor a zombie: the one that forked it, or init. |
| `ProcReap.ReapedOnce` | kernel/proc.c:398-447 | In every run no exit is reported twice, each report carries the status given to exit, and an unreported one is still a zombie. |
| `ProcReap.ReapedByParent` | kernel/proc.c:406-431 | Only wait of the parent reaps, and it reports the pid and status of the child it frees. |
| `WaitKids.InitHasKid` | kernel/proc.c:93-155 | While any other process is in use init has a child, because parents have smaller pids than their children. |
| `WaitKids.WaitGivesUp` | kernel/proc.c:408-445 | In every run wait's scan stops at every child, and at the end of the table gives up exactly when the process is killed or no process in use has it as parent; else it sleeps on its own channel. So for init too, although it may adopt behind its scan. |
| `WaitKids.WaitAnswers` | kernel/proc.c:398-447 | In every run a process leaves wait by reaping a zombie child and reporting its pid and status, or killed or childless, or because a child's status could not be copied out. |
| `ProcRecords.ExitedAsGiven` | kernel/proc.c:333-393 | In every run the statuses on record, which wait reports, are exactly those that the run's exits were given. |
| `ProcRecords.BornByFork` | kernel/proc.c:259-303 | In every run every process but init has been forked, by an action of the run, by the process its record names. |
| `ProcRecords.KilledNotWaiting` | kernel/proc.c:438-445 | In every run no killed process is asleep in wait. |
| `ProcRecords.KillSticks` | kernel/proc.c:618-636 | kill marks the process and leaves it not asleep; nothing else marks one, and the mark stays until the slot is freed. |
| `ProcRecords.WokenExactly` | kernel/proc.c:589-636 | A sleeper in wait is woken by exactly the exit of a child that has locked it, any exit if it is init, and kill; any other sleeper by exactly a wakeup of it and kill. |
| `ProcLocks.NoLockLeaks` | kernel/proc.c:259-447 | In every run a process lock is held only by a process in use at a place of fork, wait or exit that holds it. |
| `ProcLocks.SomeHolderMoves` | kernel/proc.c:363-447 | In every run, while some process lock is held and no process in exit has locked a parent it has lost, some holder of a lock can take its next step. |
| `ProcLocks.CirclesAreStale` | kernel/proc.c:363-378 | In every run processes that wait for each other's locks in a circle, of any length, include one that has locked a parent it has lost. |
| `ProcLocks.KnotStays` | kernel/proc.c:373-378 | Three processes in exit that hold each the lock the next one wants stay so through every step of every process. |
| `InitAwake.StepAwake` | kernel/proc.c:306-447 | A step leaves init asleep in wait beside a zombie child exactly when init is given a zombie while asleep, a child it adopted exits waking its old parent, or init goes to sleep on a child adopted behind its scan. |
| `InitAwake.AwakeExactly` | kernel/proc.c:306-447 | Over a whole run init is never asleep beside a zombie child if and only if no step of it is one of those. |
| `InitAwake.NobodyMisses` | kernel/proc.c:306-447 | In every run without such a step no process sleeps in wait beside a zombie child. |
| `InitWakeup.InitMissesWakeup` | kernel/proc.c:354-361 | A run after which init is asleep in wait, its lock free, with a zombie child. |
| `ExitDeadlock.ExitDeadlocks` | kernel/proc.c:363-378 | A run from boot to such a knot: a process in exit locks its old parent's slot, which a grandchild now occupies. |
| `Pipe.FullTest` | kernel/pipe.c:84-114 | The tests for full and empty are right although the counters wrap at 32 bits. |
| `Pipe.Buffer.Put` | kernel/pipe.c:94 | Appends one byte to the contents. |
| `Pipe.Buffer.Get` | kernel/pipe.c:118 | Takes the oldest byte off the contents. |
| `Pipe.Buffer.Write` | kernel/pipe.c:83-95 | Appends bytes until done, the buffer is full or a copy fails, and says which. |
| `Pipe.Buffer.Read` | kernel/pipe.c:115-121 | Takes bytes off the front; all reach the caller but one that could not be copied out. |
| `PipeWait.Fifo` | kernel/pipe.c:76-127 | In every run the bytes taken out, then those in the buffer, are the bytes put in, with at most 512 buffered. |
| `PipeWait.SentAsAsked` | kernel/pipe.c:76-101 | In every run the bytes that entered the pipe are, in order, those that the run's write calls were given, each call's from its first byte on. |
| `PipeWait.Stretches` | kernel/pipe.c:76-127 | In every run a writer goes on until its call is done, copying fails or the pipe is full, and sleeps exactly when it is full with a reader to wait for; a reader takes what is there up to what it asked for, and sleeps exactly when there is nothing yet. |
| `PipeWait.OpenUntilClosed` | kernel/pipe.c:59-74 | In every run an end is open exactly until it is closed. |
| `PipeWait.KilledAwake` | kernel/pipe.c:84-111 | In every run no killed process is asleep on the pipe. |
| `PipeWait.StepAwake` | kernel/pipe.c:76-127 | A step leaves nobody asleep on a condition that holds, exactly unless a killed writer fills the buffer and gives up while a reader sleeps. |
| `PipeWait.NobodyStranded` | kernel/pipe.c:59-127 | In every run without such a writer no reader sleeps with data or a closed writer, no writer with space or a closed reader, and never one of each. |
| `PipeWait.AwakeExactly` | kernel/pipe.c:59-127 | Over a whole run nobody sleeps on a condition that holds if and only if no step of it is such a writer. |
| `PipeWait.ReaderStranded` | kernel/pipe.c:76-105 | A run from an empty pipe in which a killed writer fills the buffer and leaves a reader asleep. |
| `Virtqueue.NoThree` | kernel/virtio_disk.c:154-166 | At most two requests are in flight. |
| `Virtqueue.UsedTest` | kernel/virtio_disk.c:256 | Comparing indices modulo 8 tells exactly whether a completion is unseen. |
| `Virtqueue.StepInv` | kernel/virtio_disk.c:168-270 | Every step of a thread, the handler and the device keeps the invariant. |
| `Virtqueue.QueueSafe` | kernel/virtio_disk.c:116-270 | In every run the descriptors are free or in one of at most two disjoint chains, and threads sleep only for what has not happened. |
| `Virtqueue.ServedAsAsked` | kernel/virtio_disk.c:168-227 | In every run a thread's three descriptors are for the buffer it was called with: a header the device reads, data the device writes exactly for a read, and a status the device writes. |
| `Virtqueue.ThreadPath` | kernel/virtio_disk.c:176-249 | In every run a thread sleeps for descriptors exactly when it finds fewer than three, then on its buffer, and goes on only when the device is done with it. |
| `Virtqueue.ReturnsDone` | kernel/virtio_disk.c:240-249 | In every run a thread returns only after the device has completed its own request and the handler has seen that. |
| `Virtqueue.IntrReleases` | kernel/virtio_disk.c:252-270 | The handler's next turn is for the oldest unseen completion and releases exactly its buffer. |
| `Virtqueue.ReleaseSafe` | kernel/virtio_disk.c:128-152 | Freeing a chain frees three descriptors in range, none of them free, so neither panic fires. |
| `VirtioDisk.Table.AllocDesc` | kernel/virtio_disk.c:116-126 | Takes the first free descriptor, or none. |
| `VirtioDisk.Table.FreeChain` | kernel/virtio_disk.c:142-152 | Frees exactly the linked descriptors. |
| `VirtioDisk.Table.Alloc3Desc` | kernel/virtio_disk.c:154-166 | Takes three descriptors when three are free, and otherwise changes nothing. |
| `FreeRing.GrantInv` | user/umalloc.c:46-61 | New units from sbrk join as one block handed out. |
| `FreeRing.FreedInv` | user/umalloc.c:24-44 | free loses and duplicates no unit, touches no other block and leaves no two free neighbours. |
| `FreeRing.TakeInv` | user/umalloc.c:73-85 | malloc's cut turns part or all of one free block into one live block and keeps the rest. |
| `FreeRing.LiveApart` | user/umalloc.c:24-90 | Two blocks handed out never share a unit, and none lies in free memory. |
| `FreeRing.FullyCoalesced` | user/umalloc.c:31-42 | Neighbouring free units are always part of the same block. |
| `Umalloc.PlaceExists` | user/umalloc.c:29-31 | Every live block has exactly one place in the address order, so free's search has an end. |
| `Umalloc.Allocator.Free` | user/umalloc.c:24-44 | Exactly that block stops being live; the ring stays linked in address order and coalesced, and freep is the block below. |
| `Umalloc.Allocator.Morecore` | user/umalloc.c:46-61 | Adds the units and leaves a block that fits, or changes nothing when sbrk fails. |
| `Umalloc.Allocator.Malloc` | user/umalloc.c:63-90 | A new block and nothing else, whose units past the header hold the request and of which one fewer would not; it is the end of the first block after freep that fits; more memory, 4096 units or what is needed, is asked for exactly when nothing fits, and 0 is returned exactly when that fails too. |
| `ShellGrammar.ReadShow` | user/sh.c:344-446 | Reading the tokens of any command tree with at most nine arguments a command gives the tree back. |
| `ShellLexer.ToksRender` | user/sh.c:265-308 | The tokens of written-out tokens are those tokens. |
| `ShellLexer.ToksGlue` | user/sh.c:262-308 | The tokens of a line, put together, are the line without its blanks, tabs, returns, newlines and vertical tabs. |
| `ShellLexer.PrintParse` | user/sh.c:327-446 | Printing a command tree of proper words and parsing the line gives the tree back. |
| `ShellLexer.ParsePrintParse` | user/sh.c:327-446 | Any tree the parser returns has at most nine words a command, none of them empty or holding white space or a symbol, and printing and parsing it again gives the same tree. |
| `Shell.Parser.Peek` | user/sh.c:310-320 | Skips white space and says whether the next token starts with one of the symbols. |
| `Shell.Parser.Gettoken` | user/sh.c:265-308 | Names and delimits the next token and moves past it. |
| `Shell.Parser.ParseRedirs` | user/sh.c:374-397 | Reads redirections as the grammar does, with the source's modes and descriptors. |
| `Shell.Parser.ParseArgs` | user/sh.c:427-445 | Reads words and redirections as the grammar does, with the limit on arguments. |
| `Shell.Parser.ParseExec` | user/sh.c:415-446 | Reads a simple command or a block as the grammar does. |
| `Shell.Parser.ParseBlock` | user/sh.c:399-413 | Reads a parenthesised line as the grammar does. |
| `Shell.Parser.ParsePipe` | user/sh.c:361-372 | Reads a pipeline as the grammar does. |
| `Shell.Parser.ParseLine` | user/sh.c:344-359 | Reads a line as the grammar does. |
| `Shell.Nulterminate` | user/sh.c:448-493 | Writes a NUL after every word of the tree and changes nothing else. |
| `Shell.TreeCut` | user/sh.c:448-493 | Then every pointer of the tree, read as a C string, is its own token. |
| `Shell.Parser.ParseCmd` | user/sh.c:327-342 | The returned tree, read as C strings, is the grammar's tree of the line, or the error is the grammar's. |
| `Grep.Match` | user/grep.c:70-80 | True exactly when the pattern's declarative reading matches somewhere, or at the start after a caret. |
| `Grep.MatchHere` | user/grep.c:82-94 | True exactly when the items match at the beginning. |
| `Grep.MatchStar` | user/grep.c:96-104 | True exactly when some run of the character, then the rest, matches. |
| `Grep.EachLine` | user/grep.c:21-28 | Deals with every complete line of the buffer before a NUL and leaves the rest. |
| `Grep.Grep` | user/grep.c:10-34 | However reads split it, the output is the matching lines, before the first one longer than 1023 bytes, of the input up to its first NUL. |
| `Grep.OutputComplete` | user/grep.c:10-34 | Grep misses no matching line, whatever the pattern, if and only if every complete line has at most 1023 bytes with its newline. |
| `Grep.OverlongLost` | user/grep.c:10-34 | For an input of one line of 1024 bytes, which the empty pattern matches, grep writes nothing. |

## Left out

- GroupCommit.StepInv: holds for commits that fit the log; `LogOverflow.BudgetExact` says which operations ensure that.
- GroupCommit.CrashConsistency: likewise, for runs whose commits fit.
- LogDevice.Log.InstallTrans: buffers have no counts here, so unpinning a block nobody pinned has no effect; `BufferCache.InstallKeepsCountsExactly` says what it does to the counts.
- LogDevice.Log.TryBeginOp: one pass of begin_op's loop; sleeping and trying again are steps of `GroupCommit`.
- BufferRing.BCache.Bread: a caller that has to wait stops at the wait; sleeping on the buffer's lock is not modelled.
- BufferRing.BCache.Bpin: log_write's assignment of the new contents and the pin are one step, for a block not yet pending; absorbing into a pending block is the step `LogIt` of `BufferCache`.
- FileSystem.Files.Iupdate: only that the inode's block is logged; the byte layout of an inode on disk is not modelled.
- Umalloc.Allocator.Malloc: requests whose size in bytes does not fit sbrk's int argument are outside the model, and so is a program that moves the break itself.
- Mkfs.Image.Iappend: mkfs does not check for running out of blocks; an image too small for its files is outside the model.
- Directories.Tree.Link: nlink is a short in the source; the model's counts do not wrap at 32767.
- Directories.Tree.Create: nlink is a short in the source; the model's counts do not wrap at 32767.
- FileSystem.Files.Writei: contents are what bread shows; the bytes of a chunk whose copy failed are in a buffer that is neither logged nor pinned, and their loss when it is recycled is not modelled.
- FileWrite.WriteOneOp: likewise for a chunk whose copy failed.
- FileWrite.Filewrite: likewise.
- ProcLocks.SomeHolderMoves: one way only; a process that has locked a parent it has lost need not be part of a deadlock, but every deadlock has one (`ProcLocks.CirclesAreStale`).
- Reference counts of buffers are taken not to reach their upper end; only the wrap below zero is modelled.
- The inode cache (iget, iput, ilock), path walking (namex, skipelem) and copyinstr: thin compositions of what is modelled, or easy members beside it.
- A pipe's page is not freed in the model when both ends are closed; file references keep it alive while a call is inside.
- The virtio device completes each request it took once, with status 0; the status panic and the register handshake are not modelled.
- Process identifiers and the log of exits do not wrap.
- Memory ordering, interrupts, the scheduler's fairness, and progress in the sense of "eventually".
- Boot, traps, exec, the console, the UART, system call argument fetching and the remaining user programs.
