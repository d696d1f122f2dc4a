# A model of xv6 for RISC-V

The xv6 teaching kernel with its local additions, modelled in Dafny: what its storage
stack, virtual memory, synchronisation and process management promise over whole runs, and
what four of its user programs compute.  `dafny verify dfyconfig.toml` checks everything.

| part | modules | main results |
|---|---|---|
| redo log | DiskLog, LogCommit, AtomicDisk, LogSpace | crash atomicity; space reservation and exactly when it is enough |
| cache, log and crashes, concurrently | Storage, BufferCache, BufferRoom | reads see the last write; crashes keep whole operations and all finished ones; LRU list; exactly when a buffer is found |
| files | Volume, FileSystem | block ownership; files as byte sequences; exactly what a write counts and changes; at most 10 logged blocks per chunk |
| links | LinkCounts | link counts are right exactly under directories that have links |
| memory | PageTable, AddressSpace, ProcessMemory, SystemMemory, FreePages | trees refine a flat map; sbrk, fork, exec and freeproc keep all processes' images apart and intact on every path |
| synchronisation | Monitor, SleepLock, LogSleep, DiskSleep, Pipe | no lost wakeup, or exactly when; mutual exclusion; first in, first out |
| processes | Processes | no orphans; no missed or twice-reaped zombie |
| disk driver | VirtioDisk, VirtioRuns | descriptors and rings across wrap-around; each request done once in every run |
| user programs | Heap, ConnectFour, ShellGrammar, ShellPrint, ShellParser, Regex | allocator partition; alpha-beta equals minimax; parsing undoes printing; matcher sound and complete |
| clock | Calendar | valid dates, exact round trip |

Code that changes things in place is a class or a method with loops, proved against
functions and predicates on values; interleavings are state machines whose steps are single
lock operations or stores, with theorems about every state of every run.  The heavy
reasoning is in lemmas on values, one per step.

Two sets of ghost names recur.  `owner` maps (blocks to slots, units to blocks, descriptors
to requests) are inverses of the pointers in the data, so that "in exactly one place" is a
simple equation.  `chains`, `live`, `list`, `window` and the like are what the arrays and
links mean.

Where code and expectation differ, the code is modelled and the difference proved:

- mkfs reserves one log block too few for the reservation that begin_op makes
  (`LogSpace.ReservationSoundIff`).
- A writer killed after storing bytes into an empty pipe wakes nobody
  (`Pipe.KilledWriterLosesWakeup`; `Pipe.LostExactly` says exactly when).
- Creating or linking in a removed directory makes link counts wrong
  (`LinkCounts.CreateIffLive`, `LinkCounts.LinkIffLive`, `LinkCounts.RemovedDirectoryBreaks`).
- A write whose source becomes unreadable inside a block can change more bytes than it
  counts, without logging them (`FileSystem.WriteExactIff` says exactly when,
  `FileSystem.UncountedByteRun` is a run).
- The log may list as many blocks as there are buffers, and pins them: on a log of more
  than NBUF blocks the committer can find no buffer (`BufferRoom.FindsIff`,
  `BufferRoom.FullLogRun`).  With LOGSIZE equal to NBUF, as here, no size of the log avoids
  both this and the panic for a transaction that is too big.

Assumptions, each written where it is used: blocks reach the disk atomically; the on-disk
log has a header block (`DiskLog.Layout.Valid`); file-system code logs what it
changes before unlocking it, as it does but for the failing write just named, and keeps
within MAXOPBLOCKS (`Storage`); a machine has at most
2^26 - 2 pages, so that an image never reaches the trapframe (`|mem| <= TRAPFRAME`); sbrk
grants memory at or above the break and requests fit a positive int (`Heap`); nlink stays
below 32767 and each call runs alone, although link and unlink let go of an inode between
their two updates (`LinkCounts`); the device follows sections 2.6 and 5.2 of VIRTIO 1.1.

The free list appears twice: `FreePages` threads it through the pages, and `AddressSpace`
takes it as the sequence that `FreePages` shows it to be, with the same contracts.

## Model

| member | source | states |
|---|---|---|
| DiskLog.InstalledAt | kernel/log.c:69-83 | installing a log header list puts each logged image into its own home block and leaves every other block alone |
| DiskLog.DurableDependsOn | kernel/log.c:69-123 | what a disk means to recovery depends only on its home blocks, its header and the log blocks the header lists |
| LogCommit.RecoveryStable | kernel/log.c:69-123 | every disk image that recovery passes through means the same to a later recovery, and the last one has an empty log with the durable contents at home |
| LogCommit.RepeatedCrashesKeepMeaning | kernel/log.c:69-123 | any number of recoveries, each crashed after any of its block writes, leave the meaning of the disk unchanged |
| LogCommit.HeadMeans | kernel/log.c:103-114 | the single header write changes the meaning of the disk from none of the group to all of it |
| LogCommit.CrashAtomicity | kernel/log.c:69-123 | for every group, every crash point of commit and any crashes during recovery, a completed recovery leaves the home blocks all old if the crash came before the header write and all new otherwise |
| LogCommit.Log.WriteLog | kernel/log.c:179-191 | the loop copies the cached contents of the i-th listed block to the i-th log block, one disk write each |
| LogCommit.Log.WriteHeader | kernel/log.c:103-114 | one disk write stores count and block list in the header block and keeps the rest of it |
| LogCommit.Log.InstallTrans | kernel/log.c:69-83 | the loop writes each log block to its home, and the cache agrees with the disk afterwards |
| LogCommit.Log.Commit | kernel/log.c:194-203 | commit performs exactly the disk writes that CrashAtomicity speaks of, leaves the logged contents at home and the log empty; an empty transaction writes nothing |
| LogCommit.Log.RecoverFromLog | kernel/log.c:117-123 | started with an empty cache it performs exactly the recovery writes and leaves the durable contents at home |
| LogCommit.Log.LogWrite | kernel/log.c:215-235 | a block is listed once and absorbed afterwards; the two panics are exactly the failure cases |
| AtomicDisk.CommitKeeps | kernel/log.c:147-203 | in the contract offered to file-system code, a commit makes durable only operations that have ended |
| AtomicDisk.CrashKeeps | kernel/log.c:117-123 | ... and a crash forgets only whole operations |
| LogSpace.BeginKeeps | kernel/log.c:127-142 | an operation admitted by begin_op leaves lh.n plus all unused budgets within LOGSIZE |
| LogSpace.AddKeeps | kernel/log.c:215-235 | a block added within an operation's budget is paid for by that budget and always finds room |
| LogSpace.EndKeeps | kernel/log.c:147-175 | end_op gives the rest of a budget back |
| LogSpace.ReachableReserved | kernel/log.c:127-175 | the reservation holds in every state reachable by any interleaving of operations |
| LogSpace.ReservationSoundIff | mkfs/mkfs.c:25 | the too-big-a-transaction panic is unreachable for operations within budget exactly when the on-disk log has at least LOGSIZE+1 blocks; mkfs makes it one block shorter |
| Storage.CacheStepKeeps | kernel/bio.c:59-137 | bget, bread and brelse steps of any process keep one buffer per block, filled with the current contents |
| Storage.TransactionStepKeeps | kernel/log.c:127-235 | begin_op, log_write and end_op steps keep the invariant of cache, log and disk |
| Storage.CopyKeeps | kernel/log.c:179-191 | each log copy step keeps it |
| Storage.WriteHeaderKeeps | kernel/log.c:103-114 | the header write is the step at which the whole group becomes durable |
| Storage.InstallKeeps | kernel/log.c:69-83 | installing one block keeps it |
| Storage.UnpinKeeps | kernel/bio.c:147-151 | a block is unpinned only once it is home |
| Storage.RecoverBlockKeeps | kernel/log.c:69-83 | recovery steps keep it with a cold cache |
| Storage.CrashStepKeeps | kernel/log.c:117-123 | a crash at any step, recovery included, leaves a disk whose meaning is the durable contents |
| Storage.StepKeeps | kernel/log.c:69-235 | every step of every process, the committer and recovery, and every crash keeps the invariant |
| Storage.ReadsSeeLastWrite | kernel/bio.c:93-103 | in every run, a locked and filled buffer of a home block holds the last contents logged for it, and no other buffer holds that block |
| Storage.CrashKeepsWholeOperations | kernel/log.c:147-203 | crash any run anywhere and recover, with any crashes in between: home blocks hold the replay of a prefix of the writes that contains every operation entirely or not at all and no unfinished one |
| Storage.DurableForever | kernel/log.c:126-203 | in every run a write that is durable stays durable, crashes included, and everything logged is durable whenever the log is empty or its header is on disk |
| Storage.FinishedOperationsSurvive | kernel/log.c:126-203 | in every run, whatever had been logged when the log was empty or committed is in the home blocks after any later crash and any number of crashed recoveries |
| Storage.WriteAheadAndPinned | kernel/log.c:179-235 | in every run, no logged change reaches its home block before the header is written, and logged blocks stay cached and referenced until installed |
| Storage.NoLogPanic | kernel/log.c:147-235 | in every run and for every size of the log, log_write is never outside a transaction and end_op never meets a commit; an operation within its budget meets the panic for a transaction that is too big exactly when every slot of the log is taken, which a log of more than LOGSIZE blocks rules out |
| BufferRoom.FindsIff | kernel/bio.c:59-89 | in every run, while no process holds a buffer, bget finds one for a block exactly when the log still pins fewer than NBUF blocks or the block is cached; so it always does on a log of at most NBUF blocks |
| BufferRoom.MkfsDisk | mkfs/mkfs.c:25 | the disk that mkfs makes is one on which all these runs start; its log never holds more than LOGSIZE - 1 blocks, and bget finds a buffer while nobody holds one |
| BufferRoom.FullLogRun | kernel/log.c:179-191 | on a log one block longer, a run in which three operations log NBUF blocks and end, and the committer finds no buffer for the first log block |
| BufferCache.UnlinkKeeps | kernel/bio.c:125-126 | the two assignments that unlink a buffer leave a well-formed circular doubly linked list of the others in the same order |
| BufferCache.PushKeeps | kernel/bio.c:127-130 | the four assignments that insert behind the sentinel put the buffer first |
| BufferCache.FrontSorted | kernel/bio.c:117-137 | moving the last-released buffer to the front keeps the list in order of release |
| BufferCache.Bcache.constructor | kernel/bio.c:37-53 | binit lists all NBUF buffers once |
| BufferCache.Bcache.Bget | kernel/bio.c:59-89 | a cached block gains one reference and nothing else changes; otherwise the least recently released buffer without references is recycled; with none it fails and nothing matches |
| BufferCache.Bcache.FindCached | kernel/bio.c:66-72 | the forward scan finds a buffer of the block exactly if there is one |
| BufferCache.Bcache.FindUnused | kernel/bio.c:77-86 | the backward scan finds the least recently released buffer without references |
| BufferCache.Bcache.Brelse | kernel/bio.c:117-137 | dropping the last reference makes the buffer the most recent one and keeps the order of all others |
| BufferCache.Bcache.Bpin | kernel/bio.c:140-144 | one reference more, nothing else |
| BufferCache.Bcache.Bunpin | kernel/bio.c:147-151 | one reference less, nothing else |
| FileSystem.Fs.Balloc | kernel/fs.c:66-88 | the lowest free block, which no slot points to, marked and zeroed; 0 exactly when every block is in use |
| FileSystem.Fs.constructor | mkfs/mkfs.c:108-111 | on an empty disk nothing is owned but the metadata |
| FileSystem.Fs.Bfree | kernel/fs.c:92-105 | clears the bit of a block that is in use |
| FileSystem.Fs.Bmap | kernel/fs.c:383-421 | returns the block that slot bn of the inode maps, allocating it and the indirect block if needed, and moves no block of any file; it takes exactly the blocks the slot needs, none without a hole, and returns 0 exactly when fewer are free |
| FileSystem.Fs.MapIndirect | kernel/fs.c:400-406 | allocating the indirect block gives it 256 empty entries and one owner |
| FileSystem.Fs.Readi | kernel/fs.c:472-496 | returns exactly the slice of the file's bytes, cut at the end of the file, across direct and indirect blocks, and changes nothing; out-of-range offsets read 0 bytes |
| FileSystem.Fs.Writei | kernel/fs.c:506-539 | returns -1 exactly for an offset past the end or past the largest file, including 32-bit wrap; otherwise the count is, exactly, what lies below both the last block boundary up to which the source can be read and the first block that finds no room, and it says how many bytes a failing copyin leaves behind after that; the count's bytes replace bytes off..off+r and extend the size, and nothing else of the file changes exactly if the stated condition on the inputs holds; all other files keep their bytes; inodes on disk stay equal to those in memory; three blocks' worth, aligned or not, log at most 10 blocks |
| FileSystem.Fs.WriteChunk | kernel/fs.c:516-529 | one round of the loop stores the part whole, or as far as the source can be read, or not at all when no block is left for it, takes exactly the blocks needed, and logs the data block, a bitmap block if it allocated, and the indirect block; a round that stores less than its part logs nothing of its own, and nothing at all if the block was there |
| FileSystem.Fs.Iupdate | kernel/fs.c:226-241 | writes back this inode's record and no other |
| FileSystem.Fs.Filewrite | kernel/file.c:149-174 | for every offset and count, the chunks together write a prefix of the data, every chunk logs at most MAXOPBLOCKS blocks, and the result is the count, or -1 if anything is missing for one of the four reasons there are, or if the count is negative |
| FileSystem.Fs.Itrunc | kernel/fs.c:426-453 | frees every block of the inode once, leaves it empty, keeps every other file, and never frees a free block |
| FileSystem.StoreRewrites | kernel/fs.c:516-529 | storing into a mapped block changes exactly the bytes of the file written to |
| FileSystem.EndWrite | kernel/fs.c:530-538 | setting the size after the loop makes the file the old contents overwritten at off, cut at the new end |
| FileSystem.SpillAfter | kernel/file.c:153-170 | two consecutive chunks amount to one larger write |
| FileSystem.WriteExactIff | kernel/fs.c:518-525 | for every file and write: just the counted bytes change if and only if the source can be read whole, or its readable part ends at a block boundary, or the disk is full before, or what is left behind starts at or past the end of the file, or is what was there |
| FileSystem.RoomStep | kernel/fs.c:383-421 | how many bytes find room, from the free blocks, the holes and the indirect block, goes down by just the round that bmap served |
| FileSystem.UncountedByte | kernel/fs.c:522-525 | two bytes over the start of any one-block file, one of them readable: the count is 0, and the first byte is changed |
| FileSystem.UncountedByteRun | kernel/fs.c:506-539 | the same as a run from an empty disk: write a block of zeros, then two bytes of which one can be read |
| FileSystem.TallyNext | kernel/file.c:149-174 | each round adds one data block, and a bitmap block only if it allocates, which a first round inside a block does not |
| FileSystem.TruncKeeps | kernel/fs.c:426-453 | with an inode's pointers gone and its blocks unmarked, ownership of all other blocks stands |
| Volume.TakeKeeps | kernel/fs.c:66-88 | a block marked by balloc is owned by nobody yet |
| Volume.LinkKeeps | kernel/fs.c:383-421 | storing its number in an empty slot makes that slot its only owner; the bitmap marks metadata and owned blocks and nothing else |
| Volume.LinkIndirect | kernel/fs.c:400-406 | a zeroed block as indirect block maps nothing new |
| Volume.StoreKeeps | kernel/fs.c:516-529 | storing into a data block changes no block pointer |
| Volume.GrowKeeps | kernel/fs.c:383-421 | allocation on demand keeps ownership, keeps files free of holes and changes no existing byte |
| PageTable.PteRoundTrip | kernel/riscv.h:369-373 | page number and flags survive packing into a page-table entry |
| PageTable.SlotsDiffer | kernel/riscv.h:376-379 | distinct pages below MAXVA never share all three indices |
| PageTable.TreeUnique | kernel/vm.c:88-104 | distinct table pages hang at distinct places of the tree, with indices in range |
| PageTable.Attach | kernel/vm.c:88-104 | hanging a zeroed page into an empty entry gives a well-formed tree with the same translations |
| PageTable.SetLeaf | kernel/vm.c:141-193 | storing a leaf entry changes the translation of exactly one page |
| PageTable.EmptyIsBare | kernel/vm.c:267-281 | a tree that translates nothing has no leaf, which is what freewalk needs |
| AddressSpace.Vm.Walk | kernel/vm.c:88-104 | finds the entry of a page, allocating tables on request; translations stay as they were; it fails only without allocation or out of memory |
| AddressSpace.Vm.Walkaddr | kernel/vm.c:110-126 | the physical page of a page, exactly if it is below MAXVA, mapped and open to the user; nothing changes |
| AddressSpace.Vm.Mappages | kernel/vm.c:141-168 | changes the translation of exactly the pages named, up to the point where memory ran out |
| AddressSpace.Vm.Uvmunmap | kernel/vm.c:173-193 | removes exactly the mappings named; each page behind them becomes free once; its panics cannot occur |
| AddressSpace.Vm.Uvmcreate | kernel/vm.c:198-205 | an empty image owning one page, or nothing taken |
| AddressSpace.Vm.Uvmalloc | kernel/vm.c:224-246 | grows an image with zeroed pages, mapped with exactly the permissions asked for, and changes no other translation; out of memory it takes back what it added, which cannot happen with three free pages for each new one |
| AddressSpace.Vm.Uvmdealloc | kernel/vm.c:253-263 | shrinks the image to exactly the pages of the new size, frees the rest and changes no other translation |
| AddressSpace.Vm.Freewalk | kernel/vm.c:267-281 | frees every table below and including this one, once; its panic cannot occur |
| AddressSpace.Vm.Uvmfree | kernel/vm.c:285-289 | everything the image owns becomes free |
| AddressSpace.Vm.Uvmcopy | kernel/vm.c:297-323 | the child gets a page with the same contents and permissions for each page of the parent, whose image is untouched; out of memory, which cannot happen with three free pages for each, the child is empty again |
| AddressSpace.Vm.ProcPagetable | kernel/proc.c:168-196 | an image that translates trampoline and trapframe and nothing else, or, with fewer than five pages free, nothing taken |
| AddressSpace.Vm.ProcFreepagetable | kernel/proc.c:200-204 | teardown gives back every page the image owns, once |
| AddressSpace.EmptyTree | kernel/vm.c:285-289 | an image whose user pages are unmapped and which has no fixed pages consists of bare tables only |
| AddressSpace.Bystander | kernel/vm.c:141-323 | what happens to pages outside an image leaves its translations and its contents alone |
| AddressSpace.ExtendedByOne | kernel/vm.c:224-246 | a page mapped at the end extends the image by that page and by nothing else |
| AddressSpace.CopyStep | kernel/vm.c:297-323 | each round of the copy keeps parent and child apart |
| ProcessMemory.Growproc | kernel/proc.c:247-261 | sz and the image move together for every n, including shrinking below zero; the pages that stay keep contents and permissions, new ones are zero; pages are conserved and no page outside the pool and the image changes, on success and failure; it fails only when too few pages are free |
| ProcessMemory.Allocproc | kernel/proc.c:102-142 | a trapframe page and an image that maps it and the trampoline, or, with fewer than six pages free, every page given back; only free pages are written |
| ProcessMemory.Freeproc | kernel/proc.c:148-163 | gives back trapframe and image, each page once, and changes no other page |
| ProcessMemory.Fork | kernel/proc.c:265-295 | the child's image is a copy of the parent's, page by page, under its own trapframe, and its a0 is 0; on failure the free pages are as before; only pages that were free are written, so the parent keeps translations and contents; it fails only when too few pages are free |
| ProcessMemory.CopyDone | kernel/proc.c:282-294 | what the child sees is what the parent saw when fork was called |
| ProcessMemory.Userinit | kernel/proc.c:219-243 | nine free pages are enough for the first process: one page with initcode, mapped for everything, under trampoline and trapframe, which starts it at 0 with the stack at the end of the page |
| ProcessMemory.Loadseg | kernel/exec.c:148-166 | puts each page of the segment where it belongs and nothing anywhere else; every address it asks walkaddr for is mapped for the user, so its panic cannot occur |
| ProcessMemory.LoadSegments | kernel/exec.c:52-70 | given three free pages for each page of the segments it succeeds if and only if every header is loadable and the first is not empty; the image then ends where the furthest segment ends, every page holds what the last segment covering it put there or zero, with the permissions of the first segment to reach it; failures leave an image that can be torn down |
| ProcessMemory.OneMoreSegment | kernel/exec.c:65-69 | uvmalloc and loadseg together bring in one more segment |
| ProcessMemory.AddStack | kernel/exec.c:75-87 | two more pages at the next page boundary, the lower one without user access; the segments stay as loaded |
| ProcessMemory.Uvmclear | kernel/vm.c:327-334 | changes the flags of one page only |
| ProcessMemory.Commit | kernel/exec.c:115-129 | the trapframe starts the new image, whose translations and contents stay, and every page of the old one becomes free |
| ProcessMemory.Exec | kernel/exec.c:22-141 | on success the segments, the guard page and the stack stand as loaded, the old image is free and the trapframe points at the entry; on every failure the old image stands, entry for entry and byte for byte, and no page is lost; no page outside the pool, the old image and the trapframe changes; given enough free pages it succeeds if and only if the headers are acceptable and the arguments fit |
| SystemMemory.ExchangeKeeps | kernel/proc.c:102-295 | with any number of processes: if one process exchanges pages with the pool and ends in order, all images are in order, disjoint, and account with the pool and the kernel for all of memory; every other process keeps translations, contents and trapframe |
| SystemMemory.OneOwner | kernel/proc.c:102-295 | every page of memory is free, or the kernel's, or held by exactly one process |
| SystemMemory.System.constructor | kernel/proc.c:44-58 | before the first process what is not free is the kernel's |
| SystemMemory.System.Userinit | kernel/proc.c:219-243 | from there the first process leads to a state in which the invariant of all processes holds |
| SystemMemory.System.Sbrk | kernel/proc.c:247-261 | keeps the invariant of all processes on every path; other processes are unaffected; this one's image is resized |
| SystemMemory.System.Fork | kernel/proc.c:265-313 | keeps the invariant of all processes on every path; every existing process, the parent included, is unaffected; the new one is a copy |
| SystemMemory.System.Exec | kernel/exec.c:22-141 | keeps the invariant of all processes on every path; other processes are unaffected, and after a failure this one is too; after a success it holds the program |
| SystemMemory.System.Free | kernel/proc.c:148-163 | keeps the invariant of all processes; the slot is gone, its pages are free, all others are unaffected |
| FreePages.Kmem.constructor | kernel/kalloc.c:27-40 | exactly the whole pages between the kernel and PHYSTOP are free, each once |
| FreePages.Kmem.FreeRange | kernel/kalloc.c:34-40 | the loop frees every whole page of the range and nothing else |
| FreePages.Kmem.Kfree | kernel/kalloc.c:47-63 | pushes the page on the list threaded through the pages |
| FreePages.Kmem.Kalloc | kernel/kalloc.c:69-82 | pops the page freed last, which is then on the list no more; NULL exactly if the list is empty |
| FreePages.ThreadedFrame | kernel/kalloc.c:47-63 | storing into a page that is not free does not disturb the list |
| Monitor.StepKeeps | kernel/proc.c:608-672 | every interleaving of sleep, wakeup, kill and the scheduler, one lock operation or store at a time, keeps: a process committed to sleeping on a channel whose condition holds still has a wakeup coming |
| Monitor.ScanKeeps | kernel/proc.c:637-650 | wakeup's scan holds each process's lock while it looks at it |
| Monitor.SleeperKept | kernel/proc.c:608-650 | no step lets the scan pass a process that is on its way to sleep |
| Monitor.SleeperFate | kernel/proc.c:608-650 | a process is asleep on an open channel only if somebody is about to wake it, or it was so before, or the lock has just been given up with the wakeup due |
| Monitor.BackgroundPc | kernel/proc.c:608-672 | steps inside sleep and wakeup move one process and leave the condition alone |
| SleepLock.ActKeeps | kernel/sleeplock.c:22-41 | every statement of acquiresleep and releasesleep, in any interleaving and with kills, keeps the lock's invariant |
| SleepLock.NoLostWakeup | kernel/sleeplock.c:22-41 | in every run, whenever the inner spinlock is free, no process is asleep on, or committed to sleeping on, an unlocked sleep lock |
| SleepLock.MutualExclusion | kernel/sleeplock.c:22-52 | in every run at most one process holds the lock, and holdingsleep is true for it alone |
| LogSleep.ActKeeps | kernel/log.c:127-235 | every statement of begin_op, log_write and end_op on the log's lock, in any interleaving and with kills, keeps: operations are counted right, one process commits and then alone, and a wakeup follows every step that lets begin_op through |
| LogSleep.NoLostWakeup | kernel/log.c:127-175 | in every run, whenever the log's lock is free, nobody is asleep in begin_op or committed to sleeping there unless a commit is running or an operation more might not fit; so nobody is when no operation is running and no commit |
| LogSleep.CommitsAlone | kernel/log.c:147-175 | in every run commit runs while no operation does and in one process, and end_op's panic does not happen |
| DiskSleep.ActKeeps | kernel/virtio_disk.c:171-327 | every statement of virtio_disk_rw and virtio_disk_intr on what is waited for, in any interleaving and with kills, keeps: descriptors free and taken make NUM, and a wakeup follows every step that frees three of them or finishes a buffer |
| DiskSleep.NoLostWakeup | kernel/virtio_disk.c:216-327 | in every run, whenever the driver's lock is free, a process asleep or about to sleep for descriptors finds fewer than three free and some request out, and one asleep on a buffer finds the device still at it |
| Pipe.TestsExact | kernel/pipe.c:88-115 | the full and empty tests on 32-bit wrapping counters are exact |
| Pipe.StoreKeeps | kernel/pipe.c:95 | storing into a pipe that is not full overwrites no byte still to be read |
| Pipe.TakeKeeps | kernel/pipe.c:122 | the byte taken is the oldest one not taken yet |
| Pipe.ActKeeps | kernel/pipe.c:59-130 | every statement of pipewrite, piperead and pipeclose keeps the invariant, in which a due wakeup of readers means that the writer has stored bytes since its last wakeup and the pipe holds no others |
| Pipe.AbandonForgets | kernel/pipe.c:83-87 | a writer that is killed with more to write, when the pipe holds just the bytes it has stored since it last woke the readers, leaves every sleeping reader asleep beside them with the lock free |
| Pipe.ReaderFate | kernel/pipe.c:59-130 | no other step leaves a reader asleep beside bytes, or without a writer end, and unattended |
| Pipe.NoLostWakeup | kernel/pipe.c:59-130 | in every run, whenever the pipe's lock is free, no writer sleeps on a pipe with room or without readers, and no reader on a pipe with bytes or without writers unless a killed writer abandoned bytes before |
| Pipe.LostExactly | kernel/pipe.c:59-130 | over whole runs: a reader is at some time asleep, with the lock free, on a pipe that has bytes or no writer end, if and only if at some time a killed writer gave up in that way while the reader slept |
| Pipe.ForgottenSince | kernel/pipe.c:59-130 | such a reader has slept beside the bytes ever since |
| Pipe.KillFree | kernel/pipe.c:84-87 | in a run without kills nothing is abandoned |
| Pipe.KilledWriterLosesWakeup | kernel/pipe.c:84-87 | a run in which a writer killed after storing a byte leaves a reader asleep on a pipe that is not empty, so the condition cannot be dropped |
| Pipe.FirstInFirstOut | kernel/pipe.c:77-130 | in every run, kills included, what leaves the ring is a prefix of what entered it, at most 512 bytes behind |
| Processes.StepKeeps | kernel/proc.c:265-444 | every step of fork, exit, reparent and wait, with sleep and wakeup taken apart into lock operations, in any interleaving, keeps the family invariant |
| Processes.FamilyInReparent | kernel/proc.c:329-338 | reparent hands each child to init |
| Processes.FamilyInReparentWake | kernel/proc.c:335 | and its wakeup reaches init before anything else can happen to the child |
| Processes.FamilyInExitWake | kernel/proc.c:375-376 | exit's wakeup, slot by slot, leaves no parent asleep or on its way to sleep |
| Processes.FamilyInSleep | kernel/proc.c:608-630 | giving up wait_lock before being SLEEPING loses nothing, since the process holds its own lock until then |
| Processes.FamilyInPass | kernel/proc.c:392-444 | wait's scan passes no zombie child, and goes to sleep only if there is none |
| Processes.PidsKept | kernel/proc.c:86-163 | pids in use are distinct and none has been returned by wait |
| Processes.NoOrphans | kernel/proc.c:329-388 | in every run and at all times, every process and zombie but init has a living parent |
| Processes.NoMissedZombie | kernel/proc.c:343-444 | in every run, whenever wait_lock is free, a process asleep in wait or on its way there has no zombie child; for all but init this holds at all times |
| Processes.ReapedOnce | kernel/proc.c:392-444 | in every run each process is returned by wait at most once and only after exiting, and one that exited and was not returned is still a zombie |
| VirtioDisk.InFlightBound | kernel/virtio_disk.c:202-213 | at most two requests are in flight, since each has three descriptors of its own out of eight |
| VirtioDisk.RingPush | kernel/virtio_disk.c:268-273 | producing a ring entry overwrites none that is still to be consumed |
| VirtioDisk.RingPop | kernel/virtio_disk.c:311-313 | consuming yields the oldest entry and keeps the others |
| VirtioDisk.QueueShort | kernel/virtio_disk.c:311 | comparing 16-bit indices tells exactly whether a ring is empty, across wrap-around |
| VirtioDisk.StartStep | kernel/virtio_disk.c:216-273 | publishing a request keeps descriptors, rings and requests consistent |
| VirtioDisk.CompleteStep | kernel/virtio_disk.c:295-327 | so does the device completing any request it has taken |
| VirtioDisk.Disk.constructor | kernel/virtio_disk.c:62-153 | initially all descriptors are free and both rings empty |
| VirtioDisk.Disk.AllocDesc | kernel/virtio_disk.c:157-166 | a free descriptor, marked; -1 exactly if there is none |
| VirtioDisk.Disk.FreeDesc | kernel/virtio_disk.c:170-182 | clears the descriptor and marks it free |
| VirtioDisk.Disk.Alloc3Desc | kernel/virtio_disk.c:202-213 | three different free descriptors, or fewer than three are free and all is as before |
| VirtioDisk.Disk.Start | kernel/virtio_disk.c:216-276 | the request is formatted, recorded for its buffer and queued last; without descriptors nothing changes |
| VirtioDisk.Disk.DeviceTake | kernel/virtio_disk.c:240-276 | the device reads from ring and descriptors exactly the oldest request, its operation and its buffer |
| VirtioDisk.Disk.DeviceComplete | kernel/virtio_disk.c:295-327 | the device reports a request it has taken, in any order |
| VirtioDisk.Disk.InterruptOne | kernel/virtio_disk.c:311-324 | flags done the buffer of one completed request, which was not done before, and no other; its panic cannot occur |
| VirtioDisk.Disk.Interrupt | kernel/virtio_disk.c:295-327 | every completed request becomes done and its buffer is no longer the disk's; every other request and every other buffer stays as it is |
| VirtioDisk.Disk.Finish | kernel/virtio_disk.c:278-291 | a request whose buffer is flagged is done; its three descriptors become free; free_desc's panics cannot occur |
| VirtioDisk.Disk.FreeChain | kernel/virtio_disk.c:186-197 | following next frees the three descriptors of the chain and stops |
| VirtioRuns.StoreKeeps | kernel/virtio_disk.c:272 | the ring entry goes where the device does not look yet |
| VirtioRuns.BumpKeeps | kernel/virtio_disk.c:277 | bumping the index publishes exactly the entry stored before, whatever the device did in between |
| VirtioRuns.DeviceSeesWholeRequests | kernel/virtio_disk.c:216-281 | in every run, with the device moving between the driver's stores, what the index announces is a request whose descriptors are all in place |
| VirtioRuns.DoneExactlyOnce | kernel/virtio_disk.c:216-327 | in every run no request is flagged done twice, every request made is in flight or has been flagged, and virtio_disk_rw gets past its wait only after that |
| VirtioRuns.TestsDecide | kernel/virtio_disk.c:310-321 | in every run the device can take a request just when the available ring's indices differ, and the handler's loop goes round just when the used ring's do, each reading the head of a request in the right state |
| LinkCounts.NoDanglingEntry | kernel/sysfile.c:124-302 | no entry of a directory that has links names a freed inode |
| LinkCounts.LinkKeeps | kernel/sysfile.c:124-170 | a new name for a file keeps every link count equal to the number of entries that count |
| LinkCounts.MakeKeeps | kernel/sysfile.c:246-302 | so does a new directory with its two entries and its parent's extra link |
| LinkCounts.UnlinkKeeps | kernel/sysfile.c:189-243 | so does removing a file's name |
| LinkCounts.RmdirKeeps | kernel/sysfile.c:189-243 | so does removing an empty directory |
| LinkCounts.EmptyDir | kernel/sysfile.c:174-186 | an empty directory has exactly one link, from the directory its .. names, and that one has at least two |
| LinkCounts.CreateIffLive | kernel/sysfile.c:246-302 | create keeps the counts right exactly if the parent directory has a link |
| LinkCounts.LinkIffLive | kernel/sysfile.c:124-170 | link keeps the counts right exactly if the parent directory has a link |
| LinkCounts.DeadLinkBreaks | kernel/sysfile.c:124-170 | a file linked into a removed directory has a count that no entry accounts for |
| LinkCounts.DeadMakeBreaks | kernel/sysfile.c:246-302 | a directory made in a removed directory revives that one's .. entry without a count for it |
| LinkCounts.RemovedDirectoryBreaks | kernel/sysfile.c:189-302 | such a state is two calls away from a fresh file system: make a directory and remove it while it is in use; creating anything in it then makes the counts wrong |
| LinkCounts.FreshOk | mkfs/mkfs.c:117-128 | an empty root directory and free inodes have right counts |
| LinkCounts.Directories.DirLookup | kernel/fs.c:552-575 | the first entry in use with the name, exactly if there is one |
| LinkCounts.Directories.DirLink | kernel/fs.c:580-606 | stores into the first free entry or appends; fails exactly if the name exists or there is no room, and then changes nothing |
| LinkCounts.Directories.IsDirEmpty | kernel/sysfile.c:174-186 | true exactly if all entries past the first two are free |
| LinkCounts.Directories.Ialloc | kernel/fs.c:199-219 | the first free inode, 0 exactly if there is none |
| LinkCounts.Directories.Iput | kernel/fs.c:337-362 | frees the inode exactly if it has no link and no other reference |
| LinkCounts.Directories.Create | kernel/sysfile.c:246-302 | the inode that the existing entry names, if that will do; a new inode with its entries; or nothing changed on every failure path, which is lack of an inode or of room; afterwards the counts are right exactly if nothing was created or the parent has a link |
| LinkCounts.Directories.Link | kernel/sysfile.c:124-170 | one entry and one link more, or nothing changed because of a directory, a missing parent, lack of room or an existing name |
| LinkCounts.Directories.Unlink | kernel/sysfile.c:189-243 | succeeds exactly if there is such an entry, not . or .., and not of a directory with entries; then that entry and its link are gone, with the link of a directory's .., and the inode is freed if that was the last link and reference; nothing else changes; its panic cannot occur |
| Heap.InsertKeeps | user/umalloc.c:33-42 | linking a block in between keeps the free list circular and in address order |
| Heap.JoinSound | user/umalloc.c:33-41 | merging two adjacent free blocks loses and duplicates no unit |
| Heap.LinkMeans | user/umalloc.c:33-43 | the assignments of free amount to inserting and merging with both neighbours, so the list stays coalesced |
| Heap.StopsAtPlace | user/umalloc.c:30-32 | the search of free stops at the one place where the block belongs |
| Heap.OneBlockEach | user/umalloc.c:25-90 | blocks in use overlap neither each other nor a free block |
| Heap.EveryUnit | user/umalloc.c:25-90 | the units in blocks are exactly those obtained from sbrk |
| Heap.Allocator.Free | user/umalloc.c:25-44 | the block is in use no more and free; no unit is gained or lost; the list is circular, ordered and coalesced |
| Heap.Allocator.Morecore | user/umalloc.c:47-61 | adds exactly the units granted by sbrk to the free list, at least 4096 and enough for the request; refused, it changes nothing |
| Heap.Allocator.Malloc | user/umalloc.c:64-90 | a block of the requested size that was not in use; 0 exactly if nothing fits and sbrk refuses; sbrk is asked at most once and only if nothing fits; the search terminates |
| Heap.Allocator.Search | user/umalloc.c:74-89 | going round the circular list from freep finds a fitting block if there is one |
| Heap.Allocator.Take | user/umalloc.c:75-85 | takes the block whole or its tail; no other block in use changes |
| ConnectFour.Evaluate | user/c4.c:114-160 | the evaluation stays well within the value of a win |
| ConnectFour.ValueBound | user/c4.c:162-216 | every position's minimax value lies between a loss and a win, so a legal move always beats the initial value |
| ConnectFour.Narrowed | user/c4.c:170-190 | searching one more move with the narrowed window keeps the running value exact above alpha, or proves it at least beta |
| ConnectFour.NewLeader | user/c4.c:180-183 | a move that beats all before it becomes the leftmost best one |
| ConnectFour.Game.GetNextOpenRow | user/c4.c:36-42 | the lowest empty row of the column, -1 exactly if it is full |
| ConnectFour.Game.CheckWin | user/c4.c:52-82 | true exactly if four equal pieces lie in a row somewhere on the board, in any of the four directions |
| ConnectFour.Game.IsBoardFull | user/c4.c:84-89 | true exactly if no column is open |
| ConnectFour.Game.ScoreWindow | user/c4.c:91-112 | the loop's counts give the worth of the window |
| ConnectFour.Game.EvaluatePosition | user/c4.c:114-160 | the nested loops add up the centre pieces and all 69 windows |
| ConnectFour.Game.TryMove | user/c4.c:176-179 | making a move, searching and undoing it leaves the board as it was |
| ConnectFour.Game.Search | user/c4.c:162-216 | for every board, depth and window the result is the plain minimax value inside the window and a correct bound outside it; the board is restored |
| ConnectFour.Game.GetAiMove | user/c4.c:218-223 | the leftmost column with the best minimax value at depth 6, 0 if the game is over; the board is restored |
| ShellGrammar.GetToken | user/sh.c:267-309 | a token lies within the text, in order, and is empty only at the end of the text |
| ShellGrammar.ParseLine | user/sh.c:346-360 | parsing terminates on every text and never moves back or past the end |
| ShellPrint.LineBack | user/sh.c:346-447 | a printed command is parsed back wherever it stands before the end or a closing parenthesis |
| ShellPrint.UnitBack | user/sh.c:376-447 | a simple command or a block is parsed back, whatever separator or redirection follows |
| ShellPrint.MixedCommand | user/sh.c:417-447 | words and redirections in any order are one command with all the words as arguments, in order, and the redirections around them |
| ShellPrint.RoundTrip | user/sh.c:329-447 | for every command tree with good words and fewer than MAXARGS arguments, parsing its printing, with parentheses only where precedence requires them, yields the same tree |
| ShellParser.Parser.Gettoken | user/sh.c:267-309 | the loops find exactly the next token and move the cursor past it and the white space behind it |
| ShellParser.Parser.PeekAt | user/sh.c:312-321 | skips white space and tells whether one of the characters follows |
| ShellParser.Parser.ParseRedirections | user/sh.c:376-398 | the loop wraps the command in its redirections, in order, or panics |
| ShellParser.Parser.ParseArguments | user/sh.c:428-446 | the loop collects arguments and redirections up to a separator, or panics |
| ShellParser.Parser.ParseSimple | user/sh.c:417-447 | a simple command or a block, exactly as the grammar reads the text from the cursor; the cursor ends behind it |
| ShellParser.Parser.ParseParens | user/sh.c:401-414 | a parenthesised line with its redirections, or one of its two panics, exactly as the grammar reads the text |
| ShellParser.Parser.ParsePipeline | user/sh.c:363-373 | a pipeline, nested to the right, exactly as the grammar reads the text; it terminates on every text |
| ShellParser.Parser.ParseWholeLine | user/sh.c:346-360 | a line with its & and ; in the grammar's nesting; it terminates on every text |
| ShellParser.Parser.ParseCommand | user/sh.c:329-343 | parsecmd up to nulterminate: the whole text or a panic |
| ShellParser.LineSpans | user/sh.c:267-447 | every word of a parsed command is a maximal run of word characters of the text |
| ShellParser.EndsOutside | user/sh.c:451-494 | the end of one word never lies within another |
| ShellParser.NulTerminate | user/sh.c:451-494 | writes a NUL at the end of every word of the command and nowhere else |
| ShellParser.ParseInPlace | user/sh.c:329-343 | after parsing and terminating in place every word is a C string with exactly the characters it had |
| Regex.HereStar | user/grep.c:100-107 | a starred character takes any run it fits, then the rest must match |
| Regex.MatchHere | user/grep.c:86-97 | true exactly if a prefix of the text is in the pattern's language |
| Regex.MatchStar | user/grep.c:100-107 | the loop tries every run the star may take |
| Regex.Match | user/grep.c:74-83 | true exactly if a match starts somewhere, or at the start for a pattern beginning with ^ |
| Calendar.NextYear | kernel/datetime.c:14-16 | the closed-form count of leap years grows by exactly this year's length |
| Calendar.GetDatetime | kernel/datetime.c:18-57 | for every 64-bit tick count the fields form a valid Gregorian date, the day count fits an int, and converting back by the closed form recovers the seconds |
| Calendar.YearOf | kernel/datetime.c:34-43 | the year loop splits the day count into year and day of the year |
| Calendar.MonthOf | kernel/datetime.c:46-54 | the month loop ends within December |

## Left out

- Traps, context-switch assembly, PLIC, UART, console and MMIO registers: no visible model; swtch appears as handing over a process's lock.
- Scheduler policy and fairness: the scheduler may run any runnable process at any time.
- Waiting-time accounting, priorities and the timing record that wait copies out.
- Memory-model fences: lock operations are atomic and sequentially consistent.
- Path walking (namex, skipelem): operations on directories are given the parent and the last name.
- File descriptors, file reference counts, cwd changes, sys_open's own logic and pipe memory reuse after both ends are closed.
- Concurrency within directories and files: create, link, unlink, readi and writei each run alone, which is an assumption where they let go of a lock in between.
- FileSystem.Fs.Writei: that some chunk really logs 10 blocks is not shown, since the disk for it needs four bitmap blocks and some 24 thousand owned blocks.
- FileSystem.Fs.Readi: copyout is a byte budget, the user's page table is not consulted.
- Volume.TakeKeeps: the bitmap is one flag per block; its packing into bytes is not modelled.
- Storage.NoLogPanic: says nothing about log_write of an already listed block when the log is exactly full, where the guard runs before the search.
- Storage.ReadsSeeLastWrite: buffers of device 0, as they are before first use, may coincide.
- LogCommit.Log.Commit: the cache is a map from blocks to contents; eviction, locks and other processes are in Storage.
- AddressSpace.Vm.Kalloc: the free list is a sequence here; its threading through the pages is in FreePages.
- ProcessMemory.Exec: the ELF file is a list of segments with the pages readi makes of them, so that the tail of a partly filled page is taken as given; pushing the arguments onto the stack page is a flag for success.
- ProcessMemory.Fork: open files and the name are not copied, process states are in Processes.
- copyin, copyout and copyinstr themselves, and kernel page tables.
- LogSleep.ActKeeps: what is logged and committed is in Storage; here only the counters that begin_op tests.
- DiskSleep.ActKeeps: requests and rings are in VirtioDisk and VirtioRuns; here only the number of free descriptors and the buffers' flags.
- BufferRoom.FindsIff: says nothing while other processes hold buffers, which may use up the rest.
- Processes.PidsKept: pids are unbounded; nextpid is not wrapped around.
- Pipe.FirstInFirstOut: a byte taken whose copyout fails counts as taken, as in the code.
- VirtioDisk.Disk.DeviceComplete: the transfer of data between disk and buffer is not modelled, nor a device that reports an error.
- Heap.Allocator.Malloc: block sizes are not wrapped at 32 bits, and headers are assumed not to be overwritten by the program.
- ConnectFour.Game.Search: the store to *bestCol guarded by depth == 0 in the minimizing branch cannot be reached and is not there.
- ShellParser.Parser.ParseArguments: argv is a sequence within the command, so arguments are added by rebuilding the redirections around it.
- Regex.Match: patterns and texts are strings without their NUL; grep's line buffering is not modelled.
- LinkCounts.Directories.Create: which of the failures for lack of room occurs is given from outside.
- printf, string helpers, the other user programs, tests, mkfs as a program.
