# Verified models of xv6 with threads

Dafny models of the hard parts of an xv6 kernel for x86 that has been extended with
threads, and proofs about them. `dafny verify dfyconfig.toml` checks everything.

- `Common`: what several modules share: optional values, statuses, bytes, the 32-bit modulus, facts about sequences and maps.
- `Blocks`, `LogFormat`, `Log`, `LogProtocol`: the redo log: block formats, commit and recovery as loops over a disk, and the whole protocol of operations, cache, committer and crashes as a state machine.
- `BufferCache`: the buffer cache as a doubly linked ring in order of release, and the contents of its buffers against the disk.
- `FileSystem`, `Files`: the block bitmap, the block map of inodes, reading, writing and truncating files, and the chunks of filewrite.
- `Directories`: directories, link counts, link, unlink and create.
- `PageTables`, `VirtualMemory`, `AddressSpaces`: the page allocator and two-level page tables; growing, shrinking, copying and destroying address spaces.
- `ProcessMemory`: the sizes of processes and threads against their mapped pages, through fork, clone, exec, sbrk, wait and join.
- `Malloc`: the user-level allocator, a circular list in address order with coalescing.
- `SleepWakeup`, `SleepLock`, `Barrier`: sleep and wakeup for any condition and the rules their callers must keep; the sleep-lock and the barrier, with their own program order, as callers that keep them.
- `ProcTable`, `Lifecycle`: fork, clone, exit, wait, join and kill over the process table.
- `Pipes`: pipes as a ring buffer with counters modulo 2^32.
- `TicketLock`: the ticket lock of user threads, with tickets modulo 2^32.
- `ShellGrammar`, `ShellUnique`, `ShellMeaning`, `Shell`: the shell's grammar, why derivations are unique, what a command says about the characters it came from, the parser and the pass that cuts the line into strings.
- `Regex`: the matcher of grep.

Code that updates things in place is a class, or a method on an array, whose methods are
proved against functions and relations on values. The state of a class is also available as
one value (`View()` or `Abs()`), and the lemmas are about those values. Protocols are state
machines whose actions are the critical sections of the source; a run is any sequence of
enabled actions of any processes, and theorems about runs hold for all of them.

Ownership is modelled by a ghost map from blocks, frames or heap units to their one owner.
That no block has two owners and none is lost is then what the invariants say about the map
and the real bits, lists and tables.

Some properties that one might expect do not hold of the code as it stands. In each case
the exact condition is proved:

- A killed writer can leave a reader of a pipe asleep although there are bytes to read
  (`Pipes.WakeupLostExactlyWhenKilled`; `Pipes.KilledWriterLosesWakeup` is a run that ends so).
- link and create keep the link counts right exactly when the directory that gets the entry
  has a link itself and the 16-bit count does not overflow (`Directories.LinkIsExact`,
  `Directories.CreateIsExact`; `Directories.OrphanSpoilsCounts` creates a file in a directory
  that has been removed).
- The sizes of processes and threads do not always say which pages are mapped. Threads made
  by clone share the pages but not the size, so a growproc that succeeds keeps them in step
  exactly when no other thread shares the pages or no page comes or goes. One that fails
  keeps them in step exactly when the reason was not a new size of zero, which frees the
  pages and is then taken for an error (`ProcessMemory.ResizeIsExact`). Out of step, the next
  sbrk or fork of another thread panics (`ProcessMemory.Processes.BothGrow`,
  `ProcessMemory.Processes.ShrinkAndFork`).
- wait and exec free an address space whoever uses it: every process keeps its page directory
  exactly when no thread shares the one that is freed (`ProcessMemory.Processes.Reap`,
  `ProcessMemory.Processes.Exec`).
- The ticket lock excludes exactly while at most 2^32 tickets are outstanding
  (`TicketLock.TicketLockIsSafe`, `TicketLock.OneTicketTooMany`).
- malloc's size computation is right exactly when it does not wrap (`Malloc.PayloadFits`),
  and what it takes over is what it asks sbrk for exactly below 2 gigabytes. From there on
  sbrk gets a number that is not positive; a negative one beyond the size of the process
  succeeds and changes nothing (`Malloc.CoreIsAskedFor`, `ProcessMemory.Processes.GrowProc`).

## Model

| member | source | states |
|---|---|---|
| `LogFormat.HeaderRoundTrip` | xv6-public/log.c:85-113 | Reading a header back gives exactly the block list that was written into it, whatever the block held before. |
| `LogFormat.LogDataInvisible` | xv6-public/log.c:177-190 | While the header is empty, a write to a log data block changes nothing that recovery would give. |
| `LogFormat.HeaderCommits` | xv6-public/log.c:101-113 | The single header write switches recovery from the old blocks to all the new ones at once, and touches no other block. |
| `LogFormat.InstallInvisible` | xv6-public/log.c:69-82 | Copying a committed block home does not change what recovery gives, in any order and any number of times. |
| `LogFormat.ClearInvisible` | xv6-public/log.c:115-122 | Once every committed block is home, erasing the header does not change what recovery gives. |
| `Log.LogDevice.LogWrite` | xv6-public/log.c:213-233 | Absorption: the block is on the list exactly once and pinned with the new contents; nothing else on the list or disk changes. |
| `Log.LogDevice.WriteLog` | xv6-public/log.c:177-190 | Every listed block is copied to its log slot, and every disk along the way recovers to the old home blocks. |
| `Log.LogDevice.WriteHead` | xv6-public/log.c:101-113 | The header block holds the in-memory list after one atomic block write. |
| `Log.LogDevice.ReadHead` | xv6-public/log.c:85-96 | The in-memory list becomes the list of the header on disk. |
| `Log.LogDevice.InstallTrans` | xv6-public/log.c:69-82 | Every listed home block equals its log block afterwards, exactly the listed blocks are unpinned, and every disk along the way recovers to the same home blocks. |
| `Log.LogDevice.InstallOne` | xv6-public/log.c:73-81 | One round of the copying loop: the block is home, earlier ones stay home, and the disk after the write recovers to the same blocks. |
| `Log.LogDevice.EraseLog` | xv6-public/log.c:198-200 | Clearing the header leaves an empty log whose home blocks are the recovered ones. |
| `Log.LogDevice.WriteTransaction` | xv6-public/log.c:195-197 | All crash points before the header write recover to the old blocks, the disk after it to the new ones. |
| `Log.LogDevice.Commit` | xv6-public/log.c:192-202 | For every crash point of a commit: old blocks up to the header write and all new ones from it on; at the end all blocks are home and the log is empty. |
| `Log.LogDevice.RecoverFromLog` | xv6-public/log.c:115-122 | Recovery, interrupted at any write, still recovers to the same blocks; when it completes, those are the home blocks and the log is empty. |
| `LogProtocol.ActionKeepsInv` | xv6-public/log.c:125-233 | Every action of every process, of the committer and of a crash keeps the invariant of cache, log and disk. |
| `LogProtocol.RunKeepsInv` | xv6-public/log.c:125-233 | The invariant holds in every state of every run, over arbitrary interleavings and crashes. |
| `LogProtocol.BufferActionKeepsInv` | xv6-public/bio.c:61-141 | Getting, locking, reading, changing, releasing and evicting a buffer keep the invariant. |
| `LogProtocol.ReadersSeeLastLogged` | xv6-public/bio.c:61-116 | In every state of every run a process that holds a block it has read sees what was last logged for it, or what it has put there since, both computed from the actions of the run: cache, log and disk refine one map of blocks. |
| `LogProtocol.ActionRemembers` | xv6-public/log.c:125-233 | What each action does to the contents of a block: only a change sets them, log_write records exactly these, a header write makes the recorded ones durable, a crash goes back to the durable ones. |
| `LogProtocol.RunRemembers` | xv6-public/log.c:125-233 | In every state of every run the buffer, the recorded contents and what recovery would give are those of this history. |
| `LogProtocol.WrittenIsRead` | xv6-public/log.c:213-233 | What a process puts into a block and logs is what every later reader gets, until the block is logged again or the machine crashes. |
| `LogProtocol.WrittenSurvives` | xv6-public/log.c:69-233 | What was put into a block and logged before a header write is what every recovery gives until the next header write, through any crashes. |
| `LogProtocol.TransactionsHappen` | xv6-public/log.c:53-233 | From every disk with an empty log there is a run in which any block is given any contents by one operation, and these are at home on disk at the end. |
| `LogProtocol.LogWriteReserves` | xv6-public/log.c:213-233 | A logged block is paid for out of the budget of the operation that logs it. |
| `LogProtocol.LogWriteFits` | xv6-public/log.c:213-233 | log.lh.n stays within LOGSIZE without relying on the unlocked guard. |
| `LogProtocol.ReservationHolds` | xv6-public/log.c:125-174 | In every interleaving log.lh.n plus all unused budgets is at most LOGSIZE; begin_op has a sleeper only while a commit runs or the log has no room, and then somebody is there to wake it. |
| `LogProtocol.CommitGoesOn` | xv6-public/log.c:69-202 | Commit and recovery are never stuck: their next step is possible, or the holder of the block it needs can release it. |
| `LogProtocol.OnlyCommitPointsAreDurable` | xv6-public/log.c:177-202 | The header write of a non-empty log is the only step of the whole system that changes what a crash would leave. |
| `LogProtocol.DurableBetweenCommitPoints` | xv6-public/log.c:177-202 | Between two header writes, through any number of crashes and partial recoveries, what a crash would leave stays the same. |
| `LogProtocol.CrashAtomicity` | xv6-public/log.c:69-202 | After the last header write of a run, recovery gives every block exactly as it was last logged at that point, computed from the actions: all of the transaction, nothing later; a running system has exactly that on disk, and gives it to readers while nothing new is logged. |
| `LogProtocol.CleanDiskBoots` | xv6-public/log.c:53-66 | Every disk with an empty log header starts a run, and its blocks are what that run starts from. |
| `LogProtocol.NothingCommittedYet` | xv6-public/log.c:69-122 | Before the first header write a crash leaves every block as recovery found it at boot. |
| `BufferCache.Bcache.constructor` | xv6-public/bio.c:38-56 | The ring starts as a permutation of all buffers, in both directions; no buffer is valid, and the contents are those of the disk. |
| `BufferCache.UnlinkKeepsLinked` | xv6-public/bio.c:132-133 | Taking any buffer out keeps both directions of the ring consistent with the remaining order. |
| `BufferCache.PushKeepsLinked` | xv6-public/bio.c:134-137 | Inserting after the head keeps both directions of the ring consistent, with the buffer first. |
| `BufferCache.MoveKeepsGood` | xv6-public/bio.c:128-138 | Moving a released buffer to the front keeps the whole invariant: ring, order of release, one buffer per block, reference counts. |
| `BufferCache.RecycleKeepsGood` | xv6-public/bio.c:81-91 | Taking over a buffer that is neither referenced nor dirty keeps the invariant: at most one buffer per block of a nonzero device, and nothing lost of the block it held. |
| `BufferCache.FillKeepsGood` | xv6-public/bio.c:103-105 | A block that no valid buffer holds is current on disk, so reading it in gives its contents. |
| `BufferCache.ChangeKeepsGood` | xv6-public/bio.c:95-107 | A referenced buffer may differ from the disk: what is put into it is not lost. |
| `BufferCache.WriteKeepsGood` | xv6-public/bio.c:109-116 | Writing a buffer out keeps all contents in place. |
| `BufferCache.SameCurrent` | xv6-public/bio.c:120-141 | References may go when the buffer is dirty or written: then no contents are lost. |
| `BufferCache.BackmostIsLeastRecent` | xv6-public/bio.c:81-91 | The first clean unreferenced buffer from the back is the one released longest ago among all of those. |
| `BufferCache.Bcache.FindCached` | xv6-public/bio.c:69-76 | The scan finds the buffer of the block if there is one, and otherwise shows there is none. |
| `BufferCache.Bcache.FindVictim` | xv6-public/bio.c:81-91 | The backward scan yields the least recently released clean unreferenced buffer, or none exists. |
| `BufferCache.Bcache.Bget` | xv6-public/bio.c:61-93 | A cached block is shared: only its count and users change. Otherwise no buffer held it, and exactly the least recently used clean unreferenced buffer is taken over, neither valid nor dirty, with one reference. All other buffers, the list and the disk are as before; none is returned only if there is none. |
| `BufferCache.Bcache.Bread` | xv6-public/bio.c:95-107 | The buffer returned is valid and holds what was last put into the block by any process, however often it was evicted since; no other buffer changes. |
| `BufferCache.Bcache.Iderw` | xv6-public/bio.c:103-116 | A dirty buffer goes to its block on disk and is clean; one that is not valid gets the data of its block and is valid. |
| `BufferCache.Bcache.Bwrite` | xv6-public/bio.c:109-116 | The block on disk holds the data of the buffer, which is clean; nothing else changes. |
| `BufferCache.Bcache.MarkDirty` | xv6-public/log.c:231-231 | The buffer is marked, and so may be released with its changes only in the cache. |
| `BufferCache.Bcache.MoveToFront` | xv6-public/bio.c:132-137 | The six pointer assignments give exactly the ring with that buffer moved to the front. |
| `BufferCache.Bcache.Brelse` | xv6-public/bio.c:120-141 | One reference of this process goes; at zero the buffer becomes the most recently released; everything else, all data and all contents stay. |
| `SleepWakeup.ActionKeepsInv` | xv6-public/proc.c:539-596 | Every step of sleep, wakeup and the condition lock that keeps the callers' rules keeps the protocol invariant. |
| `SleepWakeup.NoLostWakeup` | xv6-public/proc.c:539-596 | In every run whose callers keep the rules (the condition changes under its lock, sleep only while it is false, no release of the lock while a wakeup is owed), a process asleep with its condition true has its wakeup coming: another process holds the lock and owes it, or is inside wakeup. |
| `SleepWakeup.UnpaidReleaseLoses` | xv6-public/proc.c:539-596 | The rule is needed: whoever makes the condition true and releases the lock without a wakeup leaves every sleeper asleep with no wakeup coming. |
| `SleepLock.ActionKeepsRules` | xv6-public/sleeplock.c:22-42 | Every statement of acquiresleep and releasesleep keeps the rules of sleep and wakeup, as their order in the code ensures: the loop test before sleep, wakeup before release. |
| `SleepLock.RunIsDisciplined` | xv6-public/sleeplock.c:22-42 | So every run of the sleep-lock is a run of the sleep and wakeup protocol whose callers keep its rules. |
| `SleepLock.ActionKeepsInv` | xv6-public/sleeplock.c:22-53 | Every step keeps: locked exactly when one process owns it, pid names that process, and each process is in sleep or wakeup only where its place in the code calls it. |
| `SleepLock.SleepLockIsSafe` | xv6-public/sleeplock.c:22-53 | At most one owner in every interleaving, holdingsleep answers for exactly the owner, and a process asleep on a free lock has its wakeup coming. |
| `SleepLock.NeverStuck` | xv6-public/sleeplock.c:22-42 | Whenever lk or ptable.lock is held, a holder of one of them can take its next step: no statement of acquiresleep or releasesleep blocks while holding a spinlock for good. |
| `SleepLock.CanBeTaken` | xv6-public/sleeplock.c:22-33 | From the start any process can come to hold the lock, with its pid in it. |
| `Barrier.RunKeepsInv` | xv6-public/proc.c:840-868 | count is the number of arrivals since barrier_init in every reachable state. |
| `Barrier.ActionKeepsInv` | xv6-public/proc.c:853-868 | Every step of barrier_lock keeps: count is the number of arrivals, and whoever leaves has seen n of them. |
| `Barrier.ActionKeepsRules` | xv6-public/proc.c:853-868 | Every statement of barrier_lock keeps the rules of sleep and wakeup, as its order ensures: the loop test before sleep, wakeup before release. |
| `Barrier.RunIsDisciplined` | xv6-public/proc.c:853-868 | So every run of the barrier is a run of the sleep and wakeup protocol whose callers keep its rules. |
| `Barrier.BarrierHolds` | xv6-public/proc.c:840-868 | After one barrier_init(n) no barrier_lock returns before n arrivals, and once n have arrived a process asleep at the barrier has its wakeup coming. |
| `Barrier.NeverStuck` | xv6-public/proc.c:853-868 | Whenever the barrier's lock or ptable.lock is held, a holder of one of them can take its next step. |
| `ProcTable.Ptable.Wakeup1` | xv6-public/proc.c:579-587 | Slot by slot: every process asleep on exactly this channel becomes runnable, and nothing else changes. |
| `ProcTable.Ptable.AbandonChildren` | xv6-public/proc.c:270-276 | Every child of the process is passed to init, which is woken when one of them is a zombie. |
| `ProcTable.Ptable.Exit` | xv6-public/proc.c:264-281 | Slot by slot: the process is a zombie, its children belong to init, its parent is awake, init is awake if it inherits a zombie, and nothing else changes. |
| `ProcTable.Ptable.Reap` | xv6-public/proc.c:302-311 | The slot is unused, without pid, parent or kill mark; no other slot changes. |
| `ProcTable.Ptable.Kill` | xv6-public/proc.c:602-619 | The first process with the pid is marked, and runnable if it slept; no other changes; it fails exactly when there is none. |
| `ProcTable.Ptable.ScanChildren` | xv6-public/proc.c:296-320 | The scan of wait finds a zombie child exactly when there is one, and knows exactly whether there are children at all. |
| `ProcTable.Ptable.ScanThreads` | xv6-public/proc.c:739-770 | The scan of join finds a zombie child that shares the page directory exactly when there is one. |
| `ProcTable.ExitedAt` | xv6-public/proc.c:241-282 | The same of the specification of exit, for every slot: new state and new parent, and no other field. |
| `Lifecycle.ExitKeepsParents` | xv6-public/proc.c:241-282 | exit keeps: every started process but init has a live parent. |
| `Lifecycle.ForkKeepsParents` | xv6-public/proc.c:85-128 | The steps of fork and clone keep the parent relation, also while the new slot is an embryo. |
| `Lifecycle.ExitMissesNone` | xv6-public/proc.c:241-282 | exit leaves no parent asleep in wait or join over the new zombie. |
| `Lifecycle.ReapKeepsPids` | xv6-public/proc.c:296-315 | Reaping keeps: pids in use are distinct, and every reaped pid has exited and was reaped once. |
| `Lifecycle.ActionKeepsInv` | xv6-public/proc.c:85-326 | Every action under ptable.lock keeps the invariant of parents, sleepers and pids. |
| `Lifecycle.ExitAndReapAreSafe` | xv6-public/proc.c:85-326 | In every state of every run: each started non-init process has a live parent, nobody sleeps in wait with a zombie child or in join with a zombie thread, and each exited pid is returned at most once. |
| `Lifecycle.SlotAfter` | xv6-public/proc.c:85-619 | The pid, parent, kill mark and page directory of every slot after every action. |
| `Lifecycle.StateOfSlotAfter` | xv6-public/proc.c:85-619 | The state of every slot after every action: who falls asleep on what, who is woken, who runs, exits or is given back. |
| `Lifecycle.TableIsHistory` | xv6-public/proc.c:85-619 | In every state of every run a process's parent is who forked it, or init once that one has exited; it is marked killed exactly if it was killed since its slot was last reaped; its page directory is the one it was given. |
| `Lifecycle.ListsAreHistory` | xv6-public/proc.c:241-326 | The pids recorded as exited and as reaped are those of the exit and reap actions of the run. |
| `Lifecycle.ReturnedOnceToItsForker` | xv6-public/proc.c:288-326 | Whenever wait or join returns a pid, its process was forked by the caller, or inherited by it as init, has exited before, and was never returned before. |
| `Lifecycle.ChildrenAreReaped` | xv6-public/proc.c:194-326 | From every initial table with a free slot there is a run in which init forks a child there, the child exits, and wait returns its pid. |
| `Lifecycle.WakeupReachesAll` | xv6-public/proc.c:579-596 | After a wakeup nobody sleeps on its channel, and nobody else has changed. |
| `Pipes.Pipe.constructor` | xv6-public/pipe.c:31-37 | A new pipe is empty with both ends open. |
| `Pipes.Pipe.Put` | xv6-public/pipe.c:93-93 | The byte joins the end of the accepted bytes; the slot used is free although both counters wrap at 2^32. |
| `Pipes.Pipe.Take` | xv6-public/pipe.c:116-116 | The byte taken is the oldest one not yet delivered. |
| `Pipes.Pipe.Fill` | xv6-public/pipe.c:84-94 | The copying loop accepts exactly the first bytes, and stops early only with a full pipe. |
| `Pipes.Pipe.Drain` | xv6-public/pipe.c:113-117 | The copying loop delivers exactly the oldest bytes, as many as there are and are asked for. |
| `Pipes.Pipe.WriteSection` | xv6-public/pipe.c:78-98 | One stay in the critical section: the first bytes go in, all that fit; it returns exactly when that is all, fails exactly when the pipe is full and the reader gone or the writer killed, and sleeps otherwise; readers are woken unless it fails. So it is the step of the queue. |
| `Pipes.Pipe.ReadSection` | xv6-public/pipe.c:100-121 | One stay in the critical section: it returns exactly when there are bytes or no writers, with the oldest bytes, as many as there are and are asked for; it fails exactly when it would wait and is killed; writers are woken when it returns. So it is the step of the queue. |
| `Pipes.Pipe.Close` | xv6-public/pipe.c:59-75 | The end is closed, the sleepers of the other end are woken, and the pipe is given back exactly when both ends are closed. |
| `Pipes.NextIsFifo` | xv6-public/pipe.c:78-121 | Every step of any reader or writer extends the accepted and delivered bytes and keeps at most PIPESIZE in flight. |
| `Pipes.PipeIsFifo` | xv6-public/pipe.c:59-121 | In every run delivered is a prefix of accepted and at most PIPESIZE bytes are in flight; if no writer is killed, a sleeping writer implies full and a sleeping reader empty. |
| `Pipes.WakeupLostExactlyWhenKilled` | xv6-public/pipe.c:85-91 | The one step that leaves a reader asleep on a non-empty pipe, and the only one: a killed writer that has filled an empty pipe returns without a wakeup. |
| `Pipes.KilledWriterLosesWakeup` | xv6-public/pipe.c:85-91 | That happens: a run from the empty pipe, a read and then a killed write of PIPESIZE + 1 bytes, ends with the reader asleep on a full pipe. |
| `Pipes.FreedPipeIsUnused` | xv6-public/pipe.c:59-75 | In every run the pipe is freed exactly when both ends are closed. That no call uses it afterwards rests on the reference counts of open files, which are where each end's calls and its one close come from. |
| `TicketLock.TicketLockIsSafe` | xv6-public/ulib.c:158-165 | For any number of threads, as long as at most 2^32 tickets are outstanding, in every interleaving at most one thread is inside and the order of entry is a prefix of the order of tickets, however often the counters wrap. |
| `TicketLock.FewThreadsFit` | xv6-public/ulib.c:158-165 | At most 2^32 threads never have more tickets outstanding, so for them the lock is safe in every run. |
| `TicketLock.OneTicketTooMany` | xv6-public/ulib.c:158-165 | The bound is exact: every run that first exceeds it can be continued, by at most two steps, to a state with two threads inside. |
| `TicketLock.TooManyThreadsCollide` | xv6-public/ulib.c:158-165 | With more than 2^32 threads there is such a run, from the initial state. |
| `TicketLock.RunKeepsInv` | xv6-public/ulib.c:158-165 | While at most 2^32 tickets were outstanding, the waiting threads hold consecutive tickets modulo 2^32, in every run of any number of threads. |
| `TicketLock.SeesOwnTicket` | xv6-public/ulib.c:160-160 | With at most 2^32 tickets outstanding, only the first in line can see its own ticket being served. |
| `TicketLock.HistoriesAreReal` | xv6-public/ulib.c:158-165 | The orders of tickets and of entry that the theorems speak of are those in which threads go from idle to waiting and from waiting to inside. |
| `Malloc.PayloadFits` | xv6-public/umalloc.c:69-69 | The units computed hold nbytes exactly when the rounding does not wrap in 32 bits. |
| `Malloc.CoreIsAskedFor` | xv6-public/umalloc.c:46-58 | The bytes of the block that morecore makes are the number it passes to sbrk, a signed 32-bit number, exactly when they are fewer than 2^31; otherwise that number is zero or negative. |
| `Malloc.Heap.FindPlace` | xv6-public/umalloc.c:30-32 | The walk from freep ends, at the highest list element below the block. |
| `Malloc.Heap.JoinUpper` | xv6-public/umalloc.c:33-37 | The block takes over a free block that starts where it ends; allocated blocks and covered units stay. |
| `Malloc.Heap.JoinLower` | xv6-public/umalloc.c:38-43 | The block joins the free block that ends where it starts, or is linked in; it stops being allocated and no unit is lost. |
| `Malloc.Heap.Free` | xv6-public/umalloc.c:24-44 | Exactly that block stops being allocated, the list stays circular, ordered and coalesced, and every unit is still covered. |
| `Malloc.Heap.NewBlock` | xv6-public/umalloc.c:54-58 | The units from sbrk become one allocated block and are exactly the units gained. |
| `Malloc.Heap.MoreCore` | xv6-public/umalloc.c:46-61 | It fails exactly when sbrk does, and then changes nothing, freep included; otherwise it leaves a free block large enough. |
| `Malloc.Heap.Carve` | xv6-public/umalloc.c:75-84 | A whole block or its tail becomes allocated with exactly the size asked for, at a header that was not allocated. |
| `Malloc.Heap.Search` | xv6-public/umalloc.c:74-88 | One lap finds a block that is large enough exactly when there is one. |
| `Malloc.Heap.StartRing` | xv6-public/umalloc.c:70-73 | The first call makes the anchor a valid ring of one empty block. |
| `Malloc.Heap.FirstFit` | xv6-public/umalloc.c:74-88 | sbrk is asked at most once, exactly when nothing fits, and the search then succeeds. |
| `Malloc.Heap.Malloc` | xv6-public/umalloc.c:63-90 | Exactly one new block of the computed size is allocated, disjoint from all others; it fails exactly when nothing fits and sbrk refuses; the units change only when sbrk answers with an address, by the units morecore takes over there. |
| `Malloc.BlocksDisjoint` | xv6-public/umalloc.c:24-90 | No two blocks, free or allocated, overlap. |
| `Malloc.FreeBlocksNeverTouch` | xv6-public/umalloc.c:24-44 | Between two free blocks there is always at least one unit that is not free. |
| `Malloc.UnitsAreConserved` | xv6-public/umalloc.c:24-90 | Free units plus allocated units are all units obtained from sbrk. |
| `Malloc.UpMergeJoins` | xv6-public/umalloc.c:33-35 | Merging upwards gives a list ready for the lower join, with the units of both blocks. |
| `Malloc.DownMergeKeepsGood` | xv6-public/umalloc.c:38-40 | Merging downwards keeps the heap invariant. |
| `Malloc.DownStage` | xv6-public/umalloc.c:38-40 | Merging downwards keeps the gaps between free blocks and frees exactly the block. |
| `Malloc.PlainFrees` | xv6-public/umalloc.c:41-43 | Linking in without a merge keeps the heap invariant and frees exactly the block. |
| `Malloc.UnlinkKeepsGood` | xv6-public/umalloc.c:76-77 | Taking a whole block out of the list keeps the heap invariant. |
| `Malloc.UnlinkAllocates` | xv6-public/umalloc.c:76-77 | Taking a whole block out of the list allocates exactly it. |
| `Malloc.CarveKeepsGood` | xv6-public/umalloc.c:78-82 | Splitting off the tail keeps the invariant. |
| `Shell.GetToken` | xv6-public/sh.c:265-308 | The token at the cursor, its span after leading blanks, and a cursor after trailing blanks; a word is maximal. |
| `Shell.Peek` | xv6-public/sh.c:310-320 | The cursor moves over blanks only, and the answer is whether one of the characters follows. |
| `Shell.ParseRedirs` | xv6-public/sh.c:374-397 | On success the stretch read is a list of redirections and no further one follows; on failure no list of words and redirections starts here. |
| `Shell.ParseWords` | xv6-public/sh.c:426-446 | On success the stretch read is words and redirections up to where a command may end, and the arguments are its words in order; on failure no such stretch with fewer than MAXARGS words starts here. |
| `Shell.ParseExec` | xv6-public/sh.c:415-446 | The command is that of a derivation of the stretch read, which cannot be carried on, and is spelled by its characters; on failure there is no derivation from here. |
| `Shell.ParseBlock` | xv6-public/sh.c:399-413 | The same for a parenthesised command and its redirections. |
| `Shell.ParsePipe` | xv6-public/sh.c:361-372 | The same for pipelines. |
| `Shell.ParseBackground` | xv6-public/sh.c:350-353 | The same for any number of trailing ampersands. |
| `Shell.ParseLine` | xv6-public/sh.c:344-359 | The same for lists, success and failure; the mutual recursion ends on every input. |
| `ShellGrammar.ItemsAppend` | xv6-public/sh.c:374-397 | Two adjoining stretches of words and redirections are one. |
| `Shell.OneMoreArg` | xv6-public/sh.c:426-440 | A word followed by redirections extends both the derivation and the argument list by that word. |
| `ShellGrammar.WordsApart` | xv6-public/sh.c:286-303 | Two different words of a line neither overlap nor touch. |
| `Shell.CommandLaid` | xv6-public/sh.c:344-446 | The strings of a derived command are words of its stretch, each used once. |
| `ShellMeaning.ItemOperator` | xv6-public/sh.c:374-397 | A word is the file of a redirection exactly when the last character before it that is no blank is < or >, and of the kind that this character, or two of them, say. |
| `ShellMeaning.ItemsAreArgs` | xv6-public/sh.c:426-446 | The arguments are all words of the stretch that follow no < or >, in the order of the line. |
| `ShellMeaning.ItemsAreFiles` | xv6-public/sh.c:374-397 | The files of redirections are all other words, in the order of the line, each with the kind in front of it. |
| `ShellMeaning.WrappedIsRedirected` | xv6-public/sh.c:374-397 | Redirections wrap the command in the order of the line, the last one outermost. |
| `ShellMeaning.LineIsSpelled` | xv6-public/sh.c:344-446 | The command of a derivation is one that the characters of the stretch spell, by a grammar of commands that knows nothing of how the parser builds them: left and right of bars and semicolons, ampersands, parentheses, arguments and redirections. |
| `Shell.NoStringIsCut` | xv6-public/sh.c:448-493 | No terminator position lies inside a string. |
| `Shell.NulTerminate` | xv6-public/sh.c:448-493 | Exactly the end positions of the strings are overwritten, each with NUL. |
| `Shell.StringsSurvive` | xv6-public/sh.c:448-493 | After termination every string reads back as exactly its token. |
| `Shell.ParseCmd` | xv6-public/sh.c:327-342 | A line fails, and is left alone, exactly when it has no derivation; otherwise the derivation is the only one, the result is its command, the characters of the line spell it, and its strings are apart, used once and read back as their tokens from the cut line. |
| `ShellUnique.ItemsUnique` | xv6-public/sh.c:374-440 | Words and redirections can be read in only one way. |
| `ShellUnique.ExecUnique` | xv6-public/sh.c:399-446 | Two derivations of a simple command or block from one place are the same, if one ends where it may and the other cannot be carried on. |
| `ShellUnique.PipeUnique` | xv6-public/sh.c:361-372 | The same for pipelines. |
| `ShellUnique.JobsNest` | xv6-public/sh.c:350-353 | Of two jobs that start together, one is the other with more ampersands behind it. |
| `ShellUnique.LineUnique` | xv6-public/sh.c:344-359 | A line has at most one derivation. |
| `ShellUnique.NoClose` | xv6-public/sh.c:399-413 | Without a closing parenthesis, or with a redirection that lacks its file behind it, nothing can be derived from the opening one. |
| `ShellUnique.TooManyArgs` | xv6-public/sh.c:426-440 | With MAXARGS words nothing can be derived. |
| `ShellUnique.MissingFile` | xv6-public/sh.c:380-382 | A redirection operator without a word behind it starts nothing. |
| `Regex.MatchStar` | xv6-public/grep.c:99-106 | True exactly when some number of the character followed by the rest of the pattern matches here. |
| `Regex.MatchHere` | xv6-public/grep.c:85-96 | True exactly when a prefix of the text is in the language of the pattern (the whole rest, with a closing dollar). |
| `Regex.Match` | xv6-public/grep.c:72-82 | True exactly when some stretch of the text, anchored as the pattern says, is in the declarative language of literals, dot and star. |
| `Regex.ReadAndWrite` | xv6-public/grep.c:85-96 | How a pattern is read loses nothing: written out again it is the same string; every character followed by a star is starred, and a final dollar is an anchor. |
| `Regex.WriteAndRead` | xv6-public/grep.c:85-96 | Every such list of items reads back as itself, so there is no other way to read a pattern. |
| `Regex.HereStar` | xv6-public/grep.c:99-106 | A pattern that starts with a starred item matches here exactly when some run of fitting characters is followed by a match of the rest. |
| `Regex.HereOne` | xv6-public/grep.c:93-94 | One item that is not starred consumes exactly one matching character. |
| `FileSystem.BitmapIsExact` | xv6-public/fs.c:56-95 | A bitmap bit is set exactly when the block is metadata or is reached through exactly one slot of one inode (or is claimed for one being filled). |
| `FileSystem.AllocKeepsGood` | xv6-public/fs.c:56-78 | Setting the bit of a free block keeps the ownership invariant. |
| `FileSystem.DirectKeepsGood` | xv6-public/fs.c:378-382 | Entering a fresh block in a direct slot keeps ownership exact. |
| `FileSystem.TableKeepsGood` | xv6-public/fs.c:387-388 | Entering a fresh zeroed indirect block keeps ownership exact. |
| `FileSystem.IndirectKeepsGood` | xv6-public/fs.c:389-397 | Entering a fresh block in the indirect block keeps ownership exact. |
| `FileSystem.AddrIsOwned` | xv6-public/fs.c:372-400 | Every address an inode maps is owned by exactly that slot of that inode. |
| `FileSystem.TruncateIsGood` | xv6-public/fs.c:407-435 | When all slots are cleared, the invariant holds again and no block belongs to the inode. |
| `FileSystem.TruncateKeepsOthers` | xv6-public/fs.c:407-435 | Truncation changes no block of any other inode. |
| `FileSystem.MarkOne` | xv6-public/mkfs.c:246-248 | One round of the loop over the bitmap: after the first k blocks, block k is marked too and no other. |
| `FileSystem.MakeFileSystem` | xv6-public/mkfs.c:94-111 | Zeroing the disk and marking bit after bit of the metadata gives a file system that meets the ownership invariant, with empty inodes. |
| `Files.BlankIsValid` | xv6-public/mkfs.c:94-111 | A new file system is valid, and its files are empty. |
| `Blocks.BitOfSetBlockBit` | xv6-public/fs.c:67-68 | Setting or clearing one bitmap bit changes that bit of the block and no other. |
| `Blocks.WordOfSetWord` | xv6-public/fs.c:390-393 | Storing one 32-bit word in a block reads back, and leaves all other words. |
| `Files.Disk.FindFree` | xv6-public/fs.c:63-67 | The scan yields the first free block, or there is none. |
| `Files.Disk.Balloc` | xv6-public/fs.c:56-78 | The first free block is claimed and zeroed and nothing else changes; it fails only when no block is free. |
| `Files.Disk.Bfree` | xv6-public/fs.c:80-95 | Exactly that bit is cleared. |
| `Files.Disk.Bmap` | xv6-public/fs.c:372-400 | The block address of bn exists afterwards, with zeros if it is new, and no other block of any file moves or changes; it fails only on a full disk. |
| `Files.Disk.FreeDirects` | xv6-public/fs.c:414-419 | Exactly the blocks of the direct slots are returned. |
| `Files.Disk.FreeTable` | xv6-public/fs.c:421-431 | Exactly the blocks of the indirect block, and it, are returned. |
| `Files.Disk.Itrunc` | xv6-public/fs.c:407-435 | The file becomes empty, exactly its blocks become free and every other file keeps its bytes. |
| `Files.Disk.Readi` | xv6-public/fs.c:452-476 | Exactly the requested slice of the flat contents, cut at the end of the file; the error case is the guard, including 32-bit overflow of off + n. |
| `Files.Disk.WriteChunk` | xv6-public/fs.c:492-502 | One round writes its part of one block and nothing else. |
| `Files.Disk.Writei` | xv6-public/fs.c:481-511 | The contents become old[..off] + data + old[off+n..], the size the larger of both, every other file keeps its bytes; the error cases are exactly the guards. |
| `Files.WrittenIsSpliced` | xv6-public/fs.c:492-509 | Byte by byte writing through the block map is splicing the flat sequence. |
| `Files.LoggedCount` | xv6-public/fs.c:481-511 | The blocks one writei logs are bounded by the data blocks touched, the indirect block, the inode and the bitmap. |
| `Files.ChunkBlocks` | xv6-public/file.c:127-134 | A chunk, at any offset, touches at most four data blocks. |
| `Files.Disk.WriteNext` | xv6-public/file.c:136-149 | One round of filewrite splices its chunk, and logs at most MAXOPBLOCKS blocks when the bitmap is one block. |
| `Files.Disk.FileWrite` | xv6-public/file.c:117-156 | The chunks together splice the data written so far; success exactly when that is all of it; no chunk exceeds the log budget. |
| `Files.CarryMore` | xv6-public/file.c:136-149 | Writing two adjoining chunks one after the other is writing both at once. |
| `Files.CarriedIsOverwrites` | xv6-public/file.c:136-149 | Byte by byte, carrying the first n bytes of the data over is overwriting the file with that prefix. |
| `Files.Disk.WriteChunks` | xv6-public/file.c:134-152 | The loop: after any number of chunks exactly the bytes written so far are in the file, and it stops early only at the guard of writei or on a full disk. |
| `Directories.Namespace.constructor` | xv6-public/mkfs.c:117-128 | The initial tree: a root that is its own parent, with count one, and no other inode in use. |
| `Directories.FirstTreeIsGood` | xv6-public/mkfs.c:117-128 | That tree meets the invariant of counts, names and parents, for any number of inodes. |
| `Directories.Namespace.DirLookup` | xv6-public/fs.c:524-548 | The slot of the name if there is one, compared on DIRSIZ characters; otherwise there is none. |
| `Directories.KeyIsPrefix` | xv6-public/fs.c:516-520 | Two names are the same to a directory exactly when their first DIRSIZ characters are, up to a NUL. |
| `Directories.Namespace.DirLink` | xv6-public/fs.c:551-578 | The entry goes into the first empty slot and nothing else changes; an existing name fails without change. |
| `Directories.Namespace.IsDirEmpty` | xv6-public/sysfile.c:168-181 | True exactly when no slot beyond the first two is in use. |
| `Directories.Namespace.FindUnused` | xv6-public/fs.c:194-214 | A free inode, or there is none. |
| `Directories.Namespace.MakeDots` | xv6-public/sysfile.c:269-275 | A new directory holds exactly its dot entries. |
| `Directories.Namespace.SysLink` | xv6-public/sysfile.c:118-165 | The error cases exactly; a failed call restores the count and leaves everything as before; a successful one is one entry and one link more, and keeps the invariant exactly under the stated condition. |
| `Directories.Namespace.Create` | xv6-public/sysfile.c:241-283 | An existing name is returned or refused without change; otherwise the new tree is the specified one, and the invariant holds exactly under the stated condition. |
| `Directories.Namespace.SysUnlink` | xv6-public/sysfile.c:184-239 | The error cases exactly, without change; otherwise exactly the entry goes, the counts follow and the invariant holds. |
| `Directories.LinkIsExact` | xv6-public/sysfile.c:118-165 | link keeps all counts, unique names and the tree if and only if the directory that gets the entry still has a link and the count of the file does not overflow 16 bits. |
| `Directories.CreateIsExact` | xv6-public/sysfile.c:241-283 | create keeps them if and only if the directory that gets the entry still has a link and, for a new directory, its count does not overflow. |
| `Directories.CreateRefCount` | xv6-public/sysfile.c:262-280 | How many references to each inode a create adds: its entry, and the dot-dot of a new directory. |
| `Directories.LiveIsLinked` | xv6-public/sysfile.c:118-283 | A directory hangs in the tree exactly as long as its count is not zero, so the condition is one that a caller can read off the inode. |
| `Directories.OrphanIsReached` | xv6-public/sysfile.c:184-283 | From the tree mkfs makes, creating and unlinking a directory leads to a valid state with a directory that has no link. |
| `Directories.OrphanSpoilsCounts` | xv6-public/sysfile.c:241-283 | create in that directory succeeds, and leaves a file with count one and no reference to it. |
| `Directories.UnlinkKeepsInv` | xv6-public/sysfile.c:184-239 | unlink always keeps counts, unique names and the tree. |
| `Directories.LinkResolves` | xv6-public/sysfile.c:118-165 | As a map from names to inodes: link adds the one name and changes no other lookup in any directory, no kind, and no count but that of the file. |
| `Directories.CreateResolves` | xv6-public/sysfile.c:241-283 | The same for create: the one name, and in a new directory exactly the dots; the counts of the new inode and of the parent. |
| `Directories.UnlinkResolves` | xv6-public/sysfile.c:184-239 | The same for unlink: the one name goes, and the counts of the file and, for a directory, of the parent. |
| `Directories.UnlinkRefCount` | xv6-public/sysfile.c:218-228 | How many references to each inode an unlink removes. |
| `Directories.ReclaimKeepsInv` | xv6-public/fs.c:331-352 | Giving back an inode without links keeps the invariant. |
| `Directories.UnlinkedDirHasNoLinks` | xv6-public/sysfile.c:184-239 | An empty directory that is unlinked had exactly one link, so none is left. |
| `Directories.EveryDirectoryReachesRoot` | xv6-public/sysfile.c:118-283 | From every linked directory the parents lead to the root. |
| `PageTables.MakeEntry` | xv6-public/mmu.h:93-101 | An entry holds frame, flags and the present bit, and each reads back. |
| `PageTables.LinkRoundTrip` | xv6-public/kalloc.c:73-74 | The link stored in a free page reads back as the next frame. |
| `PageTables.PushKeepsGood` | xv6-public/kalloc.c:59-77 | Freeing a held frame keeps free list and page tables consistent and changes no entry. |
| `PageTables.PopKeepsList` | xv6-public/kalloc.c:82-95 | Taking the first frame keeps the list exactly the free frames. |
| `PageTables.TableKeepsGood` | xv6-public/vm.c:43-52 | A new page table keeps all tables consistent. |
| `PageTables.UserKeepsGood` | xv6-public/vm.c:69-73 | Entering a held frame at an unused user page keeps all tables consistent. |
| `PageTables.EntryPte` | xv6-public/vm.c:35-55 | Writing one entry through the two levels changes the entry of that page of that address space and of no other. |
| `PageTables.UnmapKeepsGood` | xv6-public/vm.c:268-275 | Removing an entry releases exactly its frame. |
| `VirtualMemory.FrameIsInOnePlace` | xv6-public/vm.c:35-298 | Each frame is free exactly when on the free list, and is mapped or a page table through at most one entry. |
| `VirtualMemory.UserPagesAreApart` | xv6-public/vm.c:221-345 | Two different user pages, of one or two address spaces, never share a frame. |
| `VirtualMemory.BuiltAndGone` | xv6-public/vm.c:131-134 | Building an address space and destroying it gives every frame back and leaves all others as they were. |
| `VirtualMemory.HeldDropped` | xv6-public/vm.c:241-246 | When a growth fails, whatever was mapped in its range before or since, by this thread or another, is unmapped and its frames are free; every other page is as before, and the only frames kept are page tables. |
| `VirtualMemory.RollBack` | xv6-public/vm.c:234-246 | If nothing was mapped in the range before, a failed growth leaves all user memory as it was. |
| `VirtualMemory.MappingSpan` | xv6-public/vm.c:105-116 | The kernel ranges lie above KERNBASE, one above the other, the last reaching the last page through 32-bit wrap-around. |
| `VirtualMemory.KernelPages` | xv6-public/vm.c:83-136 | In every address space the kernel's pages map physical memory below PHYSTOP at its offset from KERNBASE, and devices at their own addresses, never for user mode, and writable except the kernel's text and read-only data. |
| `AddressSpaces.Memory.constructor` | xv6-public/kalloc.c:46-53 | The frames from the first one after the kernel on are exactly the free list. |
| `AddressSpaces.Memory.Kalloc` | xv6-public/kalloc.c:82-95 | The first free frame leaves the list, or there is none and nothing changes. |
| `AddressSpaces.Memory.Kfree` | xv6-public/kalloc.c:59-77 | The frame is filled, linked in front, and becomes the head. |
| `AddressSpaces.Memory.WalkPgdir` | xv6-public/vm.c:35-55 | Afterwards the page has a page table and every entry of every address space reads as before; with allocation it fails exactly when kalloc finds no frame. |
| `AddressSpaces.Memory.MapUser` | xv6-public/vm.c:60-80 | It panics exactly when the page is mapped already; otherwise exactly one entry changes, to the frame with the flags, or, if there is no frame for a page table, no entry changes and the frame is still held. |
| `AddressSpaces.Memory.MapKernel` | xv6-public/vm.c:60-80 | The entries of the range map consecutive frames, every other entry is as before. |
| `AddressSpaces.Memory.SetupKvm` | xv6-public/vm.c:105-136 | A new address space on free frames has exactly the kernel mappings; it fails exactly when kalloc finds no frame, and then every frame is back. |
| `AddressSpaces.Memory.AllocUvm` | xv6-public/vm.c:221-249 | It panics exactly when a page from oldsz to newsz is mapped already and kalloc does not fail first. If kalloc always finds a frame, exactly these pages are new, zeroed, writable and on frames that were free; if not, none of them is mapped afterwards, all others are as before, and no frame but page tables is kept. |
| `AddressSpaces.Memory.DeallocUvm` | xv6-public/vm.c:255-279 | Exactly the pages between the sizes go and exactly their frames become free, also across missing page tables. |
| `AddressSpaces.Memory.FreeVm` | xv6-public/vm.c:283-298 | Exactly the frames of the address space become free, each once; every other address space keeps entries and bytes. |
| `AddressSpaces.Memory.FreeTables` | xv6-public/vm.c:291-296 | The page tables of all directory entries are freed, each once. |
| `AddressSpaces.Memory.CopyUvm` | xv6-public/vm.c:315-345 | It panics exactly when a page below sz is missing and kalloc does not fail first. On success every page below sz has the same flags and bytes in a new address space and no other user page is mapped; it fails exactly when kalloc finds no frame, and then every frame is what it was. |
| `AddressSpaces.CopyIsPrivate` | xv6-public/vm.c:315-345 | The copy shares no frame with any address space, and all of those keep entries and bytes. |
| `ProcessMemory.OneSize` | xv6-public/proc.c:172-189 | If exactly the pages below one size are mapped, the same holds of another size exactly when both are the same number of pages. |
| `ProcessMemory.SizeIsDemand` | xv6-public/vm.c:71-72 | In step, no page above the size is mapped and none below is missing: what mappages and copyuvm demand. |
| `ProcessMemory.SameEntriesKeep` | xv6-public/vm.c:221-345 | An address space whose entries are the same after an operation holds the same bytes: no other use of its frames can have come between. |
| `ProcessMemory.GrownSize` | xv6-public/vm.c:221-249 | If exactly the pages below the old size are mapped, growing leaves exactly those below the new size mapped. |
| `ProcessMemory.ShrunkSize` | xv6-public/vm.c:255-279 | The same for shrinking. |
| `ProcessMemory.CopiedSize` | xv6-public/vm.c:315-345 | The copy of an address space has exactly the pages below the size mapped. |
| `ProcessMemory.ResizeIsExact` | xv6-public/proc.c:172-189 | From sizes and pages in step, growproc leaves all of them in step if and only if it succeeds and the caller is alone in its address space, or the number of pages is the same, or the new size would be negative; or it fails for another reason than a new size of zero. |
| `ProcessMemory.NewSize` | xv6-public/proc.c:172-189 | When the pages of an address space come to fit a new size of one thread, every other thread of it is still in step exactly when the number of pages did not change. |
| `ProcessMemory.ResizeIsSound` | xv6-public/proc.c:172-189 | growproc never takes a page directory away, and no other address space changes in mappings or bytes. |
| `ProcessMemory.ResizedKeepsPages` | xv6-public/proc.c:172-189 | The caller's pages below both sizes keep mappings and bytes, also when it fails. |
| `ProcessMemory.GrownIsAhead` | xv6-public/vm.c:71-72 | After one thread has grown by a page or more, allocuvm's demand fails for every thread that has kept the old size. |
| `ProcessMemory.ShrunkIsBehind` | xv6-public/vm.c:327-330 | After one thread has shrunk by a page or more, copyuvm's demand fails for every thread that has kept the old size. |
| `ProcessMemory.Replaced` | xv6-public/exec.c:97-103 | Building a new address space and then destroying the old one leaves all others as they were, the new one with its size, and every process with a page directory exactly if nobody shared the old one. |
| `ProcessMemory.ImageHoldsSegments` | xv6-public/exec.c:43-67 | The size exec computes holds every segment and two pages above them, is page-aligned, and is no larger than that takes. |
| `ProcessMemory.Processes.Spawn` | xv6-public/vm.c:119-136 | A new address space of size zero that nobody shares; every other process keeps its size, its mappings and its bytes; it fails exactly when kalloc finds no frame. |
| `ProcessMemory.Processes.Fork` | xv6-public/proc.c:206-212 | It panics exactly when a page below the caller's size is missing and kalloc does not fail first, so never when sizes and pages are in step. Otherwise the child has the caller's size and contents in an address space of its own; every process keeps its size, mappings and bytes, also on failure. |
| `ProcessMemory.Processes.Clone` | xv6-public/proc.c:686-687 | The thread shares the page directory and has a copy of the size; memory does not change, and sizes and pages are as much in step as before. |
| `ProcessMemory.Processes.Reap` | xv6-public/proc.c:300-314 | wait frees exactly the frames of the child's address space and touches no other; every remaining process has its page directory if and only if none shared the child's. |
| `ProcessMemory.Processes.Join` | xv6-public/proc.c:744-770 | join removes the thread and leaves memory and all others alone. |
| `ProcessMemory.Processes.LoadSegments` | xv6-public/exec.c:42-59 | The loop over the segments leaves exactly the pages below the highest end so far mapped; it fails exactly when kalloc finds no frame, an end is not below KERNBASE, or the size would still be zero. |
| `ProcessMemory.Processes.BuildImage` | xv6-public/exec.c:38-67 | A new address space of exactly the size of segments and stack, or, when anything fails, every frame of memory is what it was. |
| `ProcessMemory.Processes.Exec` | xv6-public/exec.c:38-110 | All or nothing: on failure every frame, mapping and size is as before; on success the process has a new address space of exactly the computed size. It never panics; every process has its page directory afterwards if and only if none shared the old one. |
| `ProcessMemory.Processes.GrowProc` | xv6-public/proc.c:172-189 | For every thread in every state: it panics exactly when a page ahead of its size is mapped and kalloc does not fail first; it fails exactly in the stated cases; pages change exactly as allocuvm and deallocuvm say, no other address space does. If sizes and pages were in step it does not panic, and they stay so exactly as ResizeIsExact says. |
| `ProcessMemory.Processes.BothGrow` | xv6-public/proc.c:172-189 | If two threads with the same size grow one after the other, the second panics, unless memory runs out. |
| `ProcessMemory.Processes.ShrinkAndFork` | xv6-public/proc.c:172-206 | If one of two threads shrinks and the other forks, the fork panics, unless memory runs out. |
| `ProcessMemory.Processes.ThreadGrowsFirst` | xv6-public/proc.c:172-189 | That is reached from every state by a new process, a clone and two calls of sbrk. |

## Left out

- Hardware and boot code, interrupt handling, segment setup and the console: device plumbing.
- Spinlock internals and memory ordering: the sections between acquire and release, and the xchg and xadd instructions, are atomic steps.
- Panics for lack of resources (no buffer, no inode, no disk block, a full directory) end an operation with a status of their own; panics on corrupted data and on misuse are excluded by preconditions that callers are shown to meet or that name what the source demands.
- LogProtocol.ReservationHolds: the guard of log_write that is read outside the lock (xv6-public/log.c:218) is not modelled, so the bound does not rest on it; with a log area of LOGSIZE blocks it can panic one block before the reservation is used up.
- LogProtocol.CrashAtomicity: each operation logs at most MAXOPBLOCKS different blocks, and a transaction is taken to fit the log area, which a disk with a log of LOGSIZE blocks does not guarantee for a full transaction.
- BufferCache.Bcache.Bread: device 0 marks buffers that were never used, and nothing is said of its blocks; waiting for a buffer's lock is not part of it.
- BufferCache.Bcache.Brelse: as the interface demands, what was changed has been written or logged before.
- Log.LogDevice.LogWrite: a list or log area that is full is excluded, as the source panics there.
- Device files in readi and writei, the on-disk layout of inodes, and the inode cache with its reference counts and locks: inodes are records, and calls on the file system follow one another.
- Path names (skipelem, namex): system calls get the inodes that a path leads to.
- Directories.Namespace.Create: file sizes, device numbers and the contents of files are not part of the directory model, which works on entries and not on bytes.
- Files.Disk.FileWrite: only the branch for inodes; files opened for reading only, and pipes behind a file, are not modelled, nor reference counts of open files.
- Files.Disk.Readi: the branch for device files is not modelled.
- Files.Disk.Writei: the branch for device files is not modelled.
- AddressSpaces.Memory.MapUser: mappages is split into the one-page call for user memory and the range call for the kernel.
- AddressSpaces.Memory.MapKernel: the panic on an entry in use is excluded by a precondition, which setupkvm is shown to meet.
- AddressSpaces.Memory.DeallocUvm: an old size above KERNBASE is excluded; the sizes of processes stay below it (`ProcessMemory.Processes`).
- ProcessMemory.Processes.Spawn: the page that inituvm loads into the first process is not modelled; it starts empty.
- ProcessMemory.Processes.Exec: only sizes and mappings; the bytes written by loaduvm and copyout, and the clearpteu of the page below the stack, are not modelled.
- ProcessMemory.Processes.Clone: the thread's stack, its check and what is written to it are not modelled, nor the thread count, which no code reads.
- ProcessMemory.Processes.GrowProc: calls of different threads follow one another; what two calls do that run at the same time on one page directory is not modelled.
- loaduvm, copyout, uva2ka and clearpteu: they add no new kind of change to page tables.
- Malloc.Heap.Malloc: what sbrk answers is a parameter, and lies above all earlier memory and above the anchor of the list; that such memory is really there is only so below the limit of `Malloc.CoreIsAskedFor`.
- Malloc.Heap.Search: one lap of the source's single loop, which starts over after morecore; addresses count units of eight bytes.
- thread_create and thread_join as users of malloc, and the mutex calls, whose code does not support the guarantees one would state.
- Lifecycle.ExitAndReapAreSafe: pids and the counter that hands them out are unbounded; freeing of stacks and page directories on reaping is not part of the model.
- Barrier.BarrierHolds: the count is unbounded, and barrier_init is called once, before all arrivals.
- SleepWakeup.NoLostWakeup: that a woken process eventually runs is a matter of scheduling and not stated.
- The lottery scheduler: each candidate gets a fresh draw, and there is no claim about odds.
- Pipes.Pipe.Close: that nobody sleeps at the end that is closed is taken from the reference counts of open files.
- The line buffering of grep, the running of parsed commands, printf, the other user programs, and mkfs apart from the empty file system and the initial tree.
