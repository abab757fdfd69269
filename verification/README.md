# Verified models of a teaching kernel

This project models the hardest parts of a small RISC-V kernel and of the xv6 sources it
builds on, in Dafny 4.11, and proves what those parts are for.  `dafny verify dfyconfig.toml`
checks everything.

- **Write-ahead log and buffer cache.** `LogMachine` and `LogProof` run processes, the
  committer, recovery and crashes as one step machine with the cache between them and the
  disk, and refine it to a store with a current and a durable block map.  `Wal` has the
  sequential code of log.c with the disk after every single write.  `BufferList` has the
  linked list of bio.c, which keeps buffers in order of release.  `LogSleep` has the processes
  that wait for the log.  `LogProgress` shows what bread, brelse, commit and recovery can always
  do: a commit can be finished exactly if the log holds fewer blocks than there are buffers.
  Since LOGBLOCKS equals NBUF this may fail, and `LogFull` gives a run, on any disk, to where it does.
- **Disk driver.** `Virtio` and `VirtioProof`: driver, interrupt handler and a device that
  finishes requests in any order.  `VirtioProgress`: all requests can be brought to their
  return.  `VirtioCode` has the descriptor loops.
- **Processes.** `ProcMachine` and `ProcProof`: fork, exit, wait, sleep and wakeup, sleep
  locks and the console reader, with wakeup's scan one slot at a time among other steps.
  `ProcCalls` says what whole calls do in every run: who holds a sleep lock, when kwait returns
  and with what.  `ProcCode` has the table scans as loops.
- **Memory.** `Sv39` gives a three-level page table its meaning as a flat map; `Vm` has the
  page allocator, walk, mappages and uvmunmap in place on physical memory; `FreeTree` has
  freewalk; `UserMem`, `UserCopy`, `Fork`, `Spaces` and `ProcMemory` build user address
  spaces, copying, fork and whole processes on top of it.  `PageCost` counts the pages that a
  mapping takes, so that fork and growth succeed exactly if there is memory for them.
- **File system.** `FsState`, `FsCode`, `WriteBudget`, `FileIo`: block ownership, file contents,
  and the log budget of a write.  `ChunkExtremes` and `WriteDisk` use that budget up.  `FsImage`
  and `FsEncode` tie the state to the words on disk, and `CrashSafe` joins this to the log: what
  is recovered after a crash is a file system in order.
- **Self-contained algorithms.** `FreeBlocks` and `Umalloc` (the K&R allocator), `Rings` (pipe
  and console input), `Regex` (grep's matcher).

Preconditions are the panics of the source: a caller has to rule them out, and the proofs show
that the callers do.  What a user copy, the kernel's memory or sbrk will grant is a parameter
(`good`, `grant`).  Sleeping is a return with the outcome `Blocked`, or a step of a machine.

Where code and comment differ, the code is modelled.  The comment above filewrite's chunk size
allows two blocks of slop for unaligned writes; `WriteBudget.ChunkFits` shows that the bound
holds because files have no holes, and `ChunkExtremes.HoleChunk` that it would not without that.

One property is false of the code: that malloc hands out only memory the kernel has granted.  The
byte count of morecore does not fit the int parameter of sbrk (umalloc.c line 54, ulib.c line 153)
once `nbytes > 0x7fffffe0`.  Then sbrk is asked to shrink the process, or for nothing, or, in the
last fifteen cases, for 16 bytes, and morecore goes on as if it had the whole block.  Its store at
the old break (umalloc.c line 58) faults and kills the program if no page below the new break
holds that address; for a process smaller than the amount to shrink by, whose size then stays as
it is, that is the case exactly if the size is a multiple of the page size.  Otherwise malloc
returns a block whose last unit was not granted.  `Umalloc.Heap.Malloc` has both conditions, for
every request and heap, and `Umalloc.FirstTooLarge` the first request that fails.

## Model

| member | source | states |
|---|---|---|
| `Wal.CommitIsAtomic` | reference/xv6-riscv/kernel/log.c:186-212 | stop commit() after any number k of its block writes: recovery then yields the old home blocks up to and including the last log copy, and all the new ones from the header write on |
| `Wal.HeadSwitches` | reference/xv6-riscv/kernel/log.c:104-116 | with all copies in the log area, the one block write of the header turns the meaning of the disk from all old to all new |
| `Wal.LoggingKeepsRecovered` | reference/xv6-riscv/kernel/log.c:187-200 | copying into the log area, however far it gets, does not change what recovery would produce |
| `Wal.InstallingKeepsRecovered` | reference/xv6-riscv/kernel/log.c:67-85 | installing, however far it gets, does not change what recovery would produce |
| `Wal.ClearedIsRecovered` | reference/xv6-riscv/kernel/log.c:118-125 | after a full install the erased header leaves the home blocks themselves equal to the recovered ones |
| `Wal.RecoveryKeepsMeaning` | reference/xv6-riscv/kernel/log.c:118-125 | stopping recovery after any of its writes leaves a disk with the same meaning |
| `Wal.RecoveryIsIdempotent` | reference/xv6-riscv/kernel/log.c:118-125 | any chain of crashes inside recovery followed by one complete recovery gives the home blocks the first crash meant, and an empty log |
| `Wal.Log.constructor` | reference/xv6-riscv/kernel/log.c:54-64 | an empty in-memory log, nothing written yet |
| `Wal.Log.LogWrite` | reference/xv6-riscv/kernel/log.c:223-244 | the block is in the list exactly once afterwards; a block already there is absorbed |
| `Wal.Log.WriteLog` | reference/xv6-riscv/kernel/log.c:187-200 | the loop over tail leaves the disks of LoggingSteps one after the other |
| `Wal.Log.WriteHead` | reference/xv6-riscv/kernel/log.c:104-116 | one write, of a header that names exactly the logged blocks and keeps the stale words behind them |
| `Wal.Log.InstallTrans` | reference/xv6-riscv/kernel/log.c:67-85 | the loop over tail leaves the disks of InstallingSteps one after the other |
| `Wal.Log.Commit` | reference/xv6-riscv/kernel/log.c:202-212 | its trace of disks is CommitSteps, each of which is a prefix CommitIsAtomic speaks of; an empty log writes nothing |
| `Wal.Log.RecoverFromLog` | reference/xv6-riscv/kernel/log.c:118-125 | its trace of disks is RecoverySteps, so every crash inside it is one that RecoveryIsIdempotent covers |
| `LogProof.StepRefines` | reference/xv6-riscv/kernel/log.c:128-261 | every step of processes, committer, recovery, cache and crash keeps the invariant and is a step (or a pause) of the abstract store: begin, write, end, commit all, crash back to the durable state |
| `LogProof.RunKeepsInv` | reference/xv6-riscv/kernel/log.c:128-261 | the invariant holds in every state of every run |
| `LogProof.RunRefinesStore` | reference/xv6-riscv/kernel/log.c:128-261 | every step of every run, crashes and recoveries included, is a step of the abstract store with one current and one durable block map |
| `LogProof.OperationsAreWhole` | reference/xv6-riscv/kernel/log.c:128-184 | in every run no operation is split over two commits; committing implies outstanding == 0; an idle log has lh.n == 0 and everything durable |
| `LogProof.SyncIsDurable` | reference/xv6-riscv/kernel/log.c:246-261 | when sys_sync may return, every operation that had ended before the call belongs to a committed transaction |
| `LogProof.IdleSyncIsDurable` | reference/xv6-riscv/kernel/log.c:246-261 | the early return of sys_sync on an idle log is right: everything that ended is committed |
| `LogSleep.NoLostLogWakeup` | reference/xv6-riscv/kernel/log.c:128-184 | over every run, while log.lock is free, a process asleep on &log or about to sleep still finds committing or too little log space (begin_op), or ncommit < n (sys_sync) |
| `LogSleep.SomeoneWillWake` | reference/xv6-riscv/kernel/log.c:152-184 | over every run, while a process waits for the log, the committing process or one with an open operation is not itself waiting for the log |
| `LogSleep.StepKeeps` | reference/xv6-riscv/kernel/log.c:128-261 | every step of waiting, waking slot by slot, killing, and of the log itself keeps the invariant behind this |
| `LogSleep.LogConsiderate` | reference/xv6-riscv/kernel/log.c:152-184 | a step of the log takes away the reason to wait only where end_op wakes the waiters |
| `LogSleep.LogIsUndisturbed` | reference/xv6-riscv/kernel/log.c:128-261 | seen without its waiters, every such run is a run of the log machine |
| `LogSleep.LookDecides` | reference/xv6-riscv/kernel/log.c:128-261 | with log.lock free, begin_op goes on exactly if the log is neither committing nor too full, and sys_sync exactly if its commit has come; otherwise they wait |
| `LogSleep.LookRegisters` | reference/xv6-riscv/kernel/log.c:128-261 | a process that has to wait for the log registers before log.lock is released, and one that goes on leaves the wait loop |
| `LogSleep.KillAwakes` | reference/xv6-riscv/kernel/proc.c:600-621 | kkill makes a process that sleeps on &log runnable, and does nothing to one that does not sleep |
| `LogSleep.SleepBlocks` | os-kernel/kernel/proc.c:435-446 | sleep() on &log blocks exactly if no wakeup has come since the process registered |
| `LogSleep.WakeupEnds` | reference/xv6-riscv/kernel/log.c:152-184 | a wakeup of &log can run to its end, and has then woken every sleeper it had still to pass |
| `LogProof.NeverTooBig` | reference/xv6-riscv/kernel/log.c:223-244 | the log count plus the unused budget of all open operations stays within LOGBLOCKS, so an operation with budget left never meets "too big a transaction" |
| `LogProof.NoLogPanic` | reference/xv6-riscv/kernel/log.c:128-150 | the same over whole runs, and an open operation means nobody is committing and outstanding is at least 1 |
| `LogProof.HeadMakesDurable` | reference/xv6-riscv/kernel/log.c:104-116 | the header write of a commit makes the recovered map equal to the current contents of every block as the cache shows it |
| `LogProof.StepCommitHead` | reference/xv6-riscv/kernel/log.c:202-212 | the header write keeps the invariant and is the abstract commit: everything current becomes durable in this step |
| `LogProof.StepCommitInstall` | reference/xv6-riscv/kernel/log.c:67-85 | installing a block and unpinning it keeps the invariant and is no step of the store: neither map changes |
| `LogProof.StepRecoverInstall` | reference/xv6-riscv/kernel/log.c:118-125 | an install step of recovery keeps the invariant and changes neither map |
| `LogProof.StepCrash` | reference/xv6-riscv/kernel/log.c:118-125 | a crash at any point keeps the invariant and takes the store back to its durable map |
| `LogProof.StepLogWrite` | reference/xv6-riscv/kernel/log.c:223-244 | log_write, absorbing or appending, keeps the invariant (pins, reservation) and is a write of the store |
| `LogProof.ReadsAreCurrent` | reference/xv6-riscv/kernel/bio.c:91-102 | in every run a locked valid buffer holds the last contents written for its block, as if there were no cache |
| `LogProof.LoggedStaysPinned` | reference/xv6-riscv/kernel/bio.c:139-153 | in every run a logged block that is not yet installed is cached, valid and referenced, so it is never recycled |
| `LogProof.StepBgetMiss` | reference/xv6-riscv/kernel/bio.c:74-88 | recycling an unreferenced buffer keeps the invariant and changes no current contents |
| `LogProof.StepReadBuf` | reference/xv6-riscv/kernel/bio.c:91-102 | reading a block from disk keeps the invariant, so the buffer holds the current contents |
| `LogProgress.Bread` | reference/xv6-riscv/kernel/bio.c:57-102 | bread can return: a process that may have a block nobody else uses gets its buffer, locked and valid, if the block is cached or a buffer is unreferenced; nothing shows in the store |
| `LogProgress.Brelse` | reference/xv6-riscv/kernel/bio.c:116-137 | brelse gives back the lock and exactly one reference |
| `LogProgress.SpareBuffer` | reference/xv6-riscv/kernel/bio.c:74-88 | with nobody using a buffer and fewer pinned blocks than buffers, one is unreferenced |
| `LogProgress.Rounds` | reference/xv6-riscv/kernel/log.c:67-85 | the loop of install_trans, like that of write_log, can run to its end by the committing process alone, releasing every buffer it takes |
| `LogProgress.CommitFinishes` | reference/xv6-riscv/kernel/log.c:152-212 | a commit of fewer blocks than there are buffers can be finished by the committing process alone from wherever it stands between two rounds; what was current is then durable, and ncommit is one higher |
| `LogProgress.RecoveryFinishes` | reference/xv6-riscv/kernel/log.c:118-125 | recovery can always be finished, from wherever it stands, with the store as it was |
| `LogProgress.CommitDecided` | reference/xv6-riscv/kernel/param.h:9-11 | a commit that begins with no buffer in use can end, with whatever help of other processes, if and only if the log holds fewer than NBUF blocks |
| `LogProgress.StuckForever` | reference/xv6-riscv/kernel/log.c:186-200 | over every run, a commit at its first block with NBUF blocks in the log stays there until a crash: all buffers are pinned, and bget finds none for the log area |
| `LogFull.FullLogIsReachable` | reference/xv6-riscv/kernel/log.c:128-150 | from a boot of every disk with room for 30 blocks behind the log, a run leads to such a commit: begin_op admits three operations of ten blocks each, which is LOGBLOCKS, and LOGBLOCKS equals NBUF |
| `BufferList.BCache.constructor` | reference/xv6-riscv/kernel/bio.c:35-52 | the loop builds a valid doubly linked ring of all buffers, all unused |
| `BufferList.BCache.FindCached` | reference/xv6-riscv/kernel/bio.c:64-72 | finds the buffer of a block, or none has it |
| `BufferList.BCache.FindUnused` | reference/xv6-riscv/kernel/bio.c:74-86 | finds the unreferenced buffer that was released longest ago, or all are referenced |
| `BufferList.BCache.Bget` | reference/xv6-riscv/kernel/bio.c:57-88 | at most one buffer per block, before and after; a hit only counts a reference, a miss relabels the least recently used free buffer; "no buffers" exactly when the block is not cached and all are referenced |
| `BufferList.BCache.Brelse` | reference/xv6-riscv/kernel/bio.c:116-137 | a buffer whose last reference goes becomes the most recently used, and the splice keeps the ring |
| `BufferList.Unlink` | reference/xv6-riscv/kernel/bio.c:128-129 | two pointer writes take a buffer out of the ring |
| `BufferList.Link` | reference/xv6-riscv/kernel/bio.c:130-133 | four pointer writes put a buffer behind the head |
| `BufferList.MovedKeepsOrder` | reference/xv6-riscv/kernel/bio.c:116-137 | moving a released buffer to the front keeps the list sorted by release time |
| `BufferList.LastIsOldest` | reference/xv6-riscv/kernel/bio.c:74-86 | the first unreferenced buffer from the back is older than all others unreferenced |
| `VirtioProof.StepKeepsInv` | reference/xv6-riscv/kernel/virtio_disk.c:215-333 | every step of driver, interrupt handler and device keeps the invariant, for any completion order |
| `VirtioProof.RunKeepsInv` | reference/xv6-riscv/kernel/virtio_disk.c:215-333 | the invariant holds in every state of every run, while the 16-bit indices wrap |
| `VirtioProof.Ownership` | reference/xv6-riscv/kernel/virtio_disk.c:199-298 | free descriptors plus three per request are always NUM, chains in flight are disjoint, and no unconsumed avail slot is the next to be written |
| `VirtioProof.NeverPanics` | reference/xv6-riscv/kernel/virtio_disk.c:169-182 | no run reaches a free_desc or status panic; a posted, taken, done or finished request can always move on |
| `VirtioProof.CallDoesWhatItSays` | reference/xv6-riscv/kernel/virtio_disk.c:215-298 | over every run, from the call of virtio_disk_rw to its return, whatever else happens: a write leaves the buffer as it was and the disk block equal to it; a read leaves the disk block as it was and the buffer equal to it |
| `VirtioProof.StepUnderway` | reference/xv6-riscv/kernel/virtio_disk.c:215-333 | no step of anyone disturbs a call under way: the data still to be moved stays where it is, and moved data stays moved, in the direction asked for |
| `VirtioProof.ReturnsCompleted` | reference/xv6-riscv/kernel/virtio_disk.c:287-298 | when virtio_disk_rw returns, its own request is finished and buffer and disk block agree |
| `VirtioProof.CompletesExactly` | reference/xv6-riscv/kernel/virtio_disk.c:238-268 | the device, following the descriptors, moves exactly this buffer to or from exactly its block and reports success |
| `VirtioProof.FreesItsChain` | reference/xv6-riscv/kernel/virtio_disk.c:185-197 | free_chain on a request frees its three descriptors and no others |
| `VirtioProof.TakesPosted` | reference/xv6-riscv/kernel/virtio_disk.c:274-284 | the avail entry the device reads is a posted request |
| `VirtioProof.HandlesDone` | reference/xv6-riscv/kernel/virtio_disk.c:318-330 | the used entry the handler reads is a completed request with status 0 and its own buffer |
| `VirtioProof.TakenIsObeyable` | reference/xv6-riscv/kernel/virtio_disk.c:238-268 | a request the device has taken is one it can follow: header, data and status descriptors linked in this order, for a block on the disk |
| `VirtioProof.RingPosition` | reference/xv6-riscv/kernel/virtio_disk.c:275 | wrapping the 16-bit index does not disturb the ring position, since NUM divides 2^16 |
| `VirtioProof.AtMostTwo` | reference/xv6-riscv/kernel/virtio_disk.c:199-213 | eight descriptors carry at most two requests, so a ring of eight never fills |
| `VirtioProgress.ServeStep` | reference/xv6-riscv/kernel/virtio_disk.c:287-333 | every step of device, handler or returning caller brings exactly one request exactly one step further |
| `VirtioProgress.AllReturn` | reference/xv6-riscv/kernel/virtio_disk.c:215-333 | from every state, all calls of virtio_disk_rw can return, in exactly the steps they have left, and then all descriptors are free |
| `VirtioCode.Queue.constructor` | reference/xv6-riscv/kernel/virtio_disk.c:144-146 | all descriptors start free |
| `VirtioCode.Queue.Alloc` | reference/xv6-riscv/kernel/virtio_disk.c:156-166 | the first free descriptor, now taken, or -1 |
| `VirtioCode.Queue.Free` | reference/xv6-riscv/kernel/virtio_disk.c:169-182 | frees a taken descriptor; for an index that is not negative, refuses exactly where the source panics |
| `VirtioCode.Queue.Alloc3Desc` | reference/xv6-riscv/kernel/virtio_disk.c:199-213 | three descriptors or, with the loop undone, none |
| `VirtioCode.ThreeTaken` | reference/xv6-riscv/kernel/virtio_disk.c:199-213 | when the loop has three descriptors, exactly the three that the machine allocates are taken |
| `VirtioCode.Queue.FreeChainFrom` | reference/xv6-riscv/kernel/virtio_disk.c:185-197 | the loop along next frees what FreeChain says, for every table of descriptors |
| `ProcProof.StepKeepsInv` | os-kernel/kernel/proc.c:209-464 | every step of fork, exit, wait, sleep, wakeup, sleep locks, console and scheduler keeps the invariant |
| `ProcProof.RunKeepsInv` | os-kernel/kernel/proc.c:209-464 | the invariant holds in every state of every run |
| `ProcProof.NoLostWakeup` | os-kernel/kernel/proc.c:424-464 | over every run SLEEPING implies a channel, and while the condition lock is free a registered process still has reason to wait: no zombie child, lock held, ring empty |
| `ProcProof.ProcessTree` | reference/xv6-riscv/kernel/proc.c:258-419 | over every run parent links lead to init, point to live processes, and a zombie has no children |
| `ProcProof.LeadsToInit` | reference/xv6-riscv/kernel/proc.c:309-320 | following parents from any live process or zombie ends at init |
| `ProcProof.ReapedOnce` | reference/xv6-riscv/kernel/proc.c:369-419 | over every run no pid is reaped twice, and only exited ones are |
| `ProcProof.FreedOffStack` | reference/xv6-riscv/kernel/proc.c:258-419 | a step that frees a slot, in a scan of kwait or a failing fork, finds no process on its kernel stack: a zombie has left it, a half-made child never had one |
| `ProcProof.ReapedOffStack` | reference/xv6-riscv/kernel/proc.c:369-419 | the same for every two successive states of every run |
| `ProcProof.StepKill` | reference/xv6-riscv/kernel/proc.c:600-621 | kkill, which finds a free slot for pid 0, keeps the invariant |
| `ProcProof.StepSleepCall` | os-kernel/kernel/proc.c:435-446 | sleep(), which sleeps only if the channel is still set, keeps the invariant that a sleeper has a channel and a reason |
| `ProcProof.StepAcquireSleep` | reference/xv6-riscv/kernel/sleeplock.c:21-34 | acquiresleep, which registers only while the lock is held, keeps the invariant |
| `ProcProof.StepReleaseSleep` | reference/xv6-riscv/kernel/sleeplock.c:36-44 | releasesleep, which leaves registered waiters to the wakeup it starts, keeps the invariant |
| `ProcProof.StepConsoleRead` | os-kernel/kernel/console.c:149-186 | consoleread, which registers only while the ring is empty, keeps the invariant |
| `ProcProof.StepExitReparent` | reference/xv6-riscv/kernel/proc.c:309-320 | giving a child to init, with the wakeup of init still to come, keeps the invariant |
| `ProcProof.StepExitZombie` | reference/xv6-riscv/kernel/proc.c:325-365 | becoming a zombie, with all children given away and the parent woken, keeps the invariant |
| `ProcProof.StepWaitScan` | reference/xv6-riscv/kernel/proc.c:369-419 | a step of the scan of kwait, freeing a zombie child or moving on, keeps the invariant |
| `ProcCalls.LockStays` | reference/xv6-riscv/kernel/sleeplock.c:21-44 | every step leaves a held sleep lock held by the same owner, except releasesleep by that owner |
| `ProcCalls.AcquireOutcome` | reference/xv6-riscv/kernel/sleeplock.c:21-34 | acquiresleep takes the lock exactly if it is free; a held one it leaves as it is, and registers on it |
| `ProcCalls.OwnsUntilRelease` | reference/xv6-riscv/kernel/sleeplock.c:21-44 | over every run p owns the lock from its acquiresleep to its own releasesleep |
| `ProcCalls.MutualExclusion` | reference/xv6-riscv/kernel/sleeplock.c:21-44 | over every run, between two acquisitions of one lock lies a releasesleep by the first owner |
| `ProcCalls.AcquireReturnsWithLock` | reference/xv6-riscv/kernel/sleeplock.c:21-34 | over every run a process that has called acquiresleep waits in it until it gets the lock; being woken, or killed, is not enough |
| `ProcCalls.FreeUntilTaken` | reference/xv6-riscv/kernel/sleeplock.c:36-44 | over every run a released lock is free until somebody acquires it |
| `ProcCalls.WokenTakesLock` | reference/xv6-riscv/kernel/sleeplock.c:21-34 | a woken waiter that is scheduled and finds the lock free takes it |
| `ProcCalls.RunKeepsKids` | reference/xv6-riscv/kernel/proc.c:369-404 | over every run, at any point of the scan of kwait, havekids tells whether a child has been passed |
| `ProcCalls.WaitDecides` | reference/xv6-riscv/kernel/proc.c:405-416 | after a whole scan kwait gives up exactly if the caller is killed or has no child; otherwise it registers on itself; either way it releases wait_lock |
| `ProcCalls.WaitReturnsForReason` | reference/xv6-riscv/kernel/proc.c:369-419 | over every run kwait returns only with a zombie child freed and its pid and status delivered, with a zombie child whose status could not be copied out, because the caller is killed, or because it has no child |
| `ProcCalls.ZombieIsReaped` | reference/xv6-riscv/kernel/proc.c:380-402 | the scan frees a zombie child it comes to, after the one step that child may need to leave its kernel stack |
| `ProcCalls.DeliversStatus` | reference/xv6-riscv/kernel/proc.c:325-419 | over every run each status kwait has delivered is the one the process with that pid gave to kexit |
| `ProcCalls.ForkStartsChild` | reference/xv6-riscv/kernel/proc.c:258-305 | over every run kfork ends with a ready child whose parent is the caller and whose pid is larger than that of any process before it |
| `ProcCalls.KillLasts` | reference/xv6-riscv/kernel/proc.c:600-621 | over every run a killed process stays killed until its slot is freed, and is not asleep when kkill is done with it |
| `ProcCalls.SleepBlocks` | os-kernel/kernel/proc.c:435-446 | sleep() blocks exactly if no wakeup has come since the process registered |
| `ProcCalls.ReadOutcome` | os-kernel/kernel/console.c:149-186 | consoleread takes one byte exactly if there is one, and registers otherwise |
| `ProcCode.Table.Wakeup` | reference/xv6-riscv/kernel/proc.c:576-596 | the loop treats each slot as the per-slot step of the machine does |
| `ProcCode.WakeStepsAll` | reference/xv6-riscv/kernel/proc.c:576-596 | the machine steps of a wakeup, uninterrupted, give the result of the loop |
| `ProcCode.AllWokenMeaning` | reference/xv6-riscv/kernel/proc.c:576-596 | after wakeup nobody is on the channel, sleepers on it are runnable, others are untouched, and a second wakeup does nothing |
| `ProcCode.Table.Reparent` | reference/xv6-riscv/kernel/proc.c:309-320 | all children belong to init, and the wakeups inside the loop amount to one |
| `ProcCode.Table.FindFree` | os-kernel/kernel/proc.c:99-110 | the first UNUSED slot, or there is none |
| `ProcCode.Table.Reap` | os-kernel/kernel/proc.c:298-328 | frees the first zombie child and changes nothing else; otherwise tells whether there are children |
| `ProcCode.Table.Kkill` | os-kernel/kernel/proc.c:467-484 | marks the first process with the pid and makes it runnable if it slept |
| `Sv39.PteRoundTrip` | reference/xv6-riscv/kernel/riscv.h:400-409 | packing an address and flags into a PTE and unpacking them gives them back; the page number lies in bits 10 to 53, the flags below |
| `Sv39.IndicesSplit` | reference/xv6-riscv/kernel/riscv.h:409-417 | the three 9-bit indices determine the virtual page below MAXVA |
| `Sv39.AddMid` | os-kernel/kernel/vm.c:109-127 | hanging an empty table from the root changes no translation |
| `Sv39.AddLow` | os-kernel/kernel/vm.c:109-127 | hanging an empty level-0 table changes no translation |
| `Sv39.SetLeaf` | os-kernel/kernel/vm.c:151-178 | writing one level-0 entry changes the translation of that page and of no other |
| `Sv39.WfOutside` | reference/xv6-riscv/kernel/vm.c:98-116 | a page table means what its own pages hold: writes elsewhere do not matter |
| `Vm.Kernel.FreeRange` | reference/xv6-riscv/kernel/kalloc.c:33-40 | the free list is exactly the pages from end to PHYSTOP, each once |
| `Vm.Kernel.Kalloc` | reference/xv6-riscv/kernel/kalloc.c:68-82 | pops the first free page and fills it with junk; 0 exactly when there is none |
| `Vm.Kernel.Kfree` | reference/xv6-riscv/kernel/kalloc.c:46-63 | pushes the page; the panic conditions are the precondition, and so is that it is not free already |
| `Vm.Kernel.Walk` | reference/xv6-riscv/kernel/vm.c:98-116 | the level-0 table of va, or 0; with or without alloc no translation changes, and pages come from the free list only; with alloc it succeeds exactly if the list is as long as the number of missing tables, and takes exactly those |
| `Vm.Kernel.WalkAddr` | reference/xv6-riscv/kernel/vm.c:121-139 | the page of a user-accessible translation, otherwise 0 |
| `Vm.Kernel.MapPages` | reference/xv6-riscv/kernel/vm.c:146-175 | exactly the named pages gain translations to consecutive physical pages; on failure the first ones did and memory is exhausted; it succeeds exactly if the free list holds the page-table pages the range lacks |
| `PageCost.CostSplits` | reference/xv6-riscv/kernel/vm.c:98-175 | the tables needed for one page and then for the rest are those needed for all: a page table is never paid for twice |
| `PageCost.CostBound` | reference/xv6-riscv/kernel/vm.c:98-116 | mapping n pages takes between n and 3n pages from the free list |
| `Vm.MappedAt` | reference/xv6-riscv/kernel/vm.c:146-175 | pointwise: inside the range the new translations, outside the old ones |
| `Vm.Kernel.UvmUnmap` | reference/xv6-riscv/kernel/vm.c:193-213 | exactly the named pages lose their translations and, with do_free, exactly their physical pages become free |
| `Vm.StillOwned` | reference/xv6-riscv/kernel/vm.c:193-213 | uvmunmap never frees a page twice |
| `FreeTree.FreeWalk` | reference/xv6-riscv/kernel/vm.c:264-280 | the recursion frees every page of the tree and touches no other page |
| `FreeTree.PartlyAt` | reference/xv6-riscv/kernel/vm.c:264-280 | the panic "freewalk: leaf" cannot happen in a tree without leaves |
| `FreeTree.AllPages` | reference/xv6-riscv/kernel/vm.c:264-280 | the subtree of the root is the whole page table |
| `UserMem.UvmAlloc` | reference/xv6-riscv/kernel/vm.c:217-242 | every page up to newsz is present and cleared, or the rollback leaves translations and visible memory as they were; it succeeds exactly if the free list before the call holds the new pages and the tables they lack; a size past TRAPFRAME is refused, given that memory runs out before the pages reach it |
| `UserMem.GrowthCosts` | reference/xv6-riscv/kernel/vm.c:217-242 | growth by n pages takes between n and 3n pages from the free list, so that 3n free pages are enough |
| `UserMem.UvmDealloc` | reference/xv6-riscv/kernel/vm.c:248-260 | exactly the pages past newsz go, back to the free list; the rest reads as before |
| `UserMem.VmFault` | reference/xv6-riscv/kernel/vm.c:458-478 | a page below the size comes into being and nothing visible changes; it does so exactly if the address is below the size, the page is absent and the free list pays for it and its tables |
| `UserMem.GrowProc` | reference/xv6-riscv/kernel/proc.c:235-254 | the new size with all old bytes, or the old space; growth succeeds exactly if it stays below TRAPFRAME and the free list pays for it; a negative result of sz + n wraps and shrinks nothing |
| `UserMem.SysSbrk` | reference/xv6-riscv/kernel/sysproc.c:39-65 | returns the old size or -1: lazily -1 exactly past TRAPFRAME, eagerly also exactly if the free list cannot pay for the growth; eager and lazy growth cannot be told apart by reading; user leaves stay below PGROUNDUP(sz) <= TRAPFRAME |
| `UserCopy.CopyOut` | reference/xv6-riscv/kernel/vm.c:344-377 | the user then reads src at dstva and everything else as before; a failure stops at the first page the user may not write, or for want of memory |
| `UserCopy.CopyIn` | reference/xv6-riscv/kernel/vm.c:382-405 | returns what the user reads there, across pages and over pages not yet allocated; it fails only at a page the user may not read, or for want of memory |
| `UserCopy.CopyInStr` | reference/xv6-riscv/kernel/vm.c:411-452 | the string the user sees up to its NUL, if that comes within max bytes; otherwise -1, after max bytes, at a page the user may not read, or for want of memory |
| `UserCopy.CopyRoundTrip` | os-kernel/kernel/vm.c:327-379 | what copyout put there, copyin finds |
| `Fork.UvmCopy` | reference/xv6-riscv/kernel/vm.c:298-326 | the child has its own copy of every page with equal flags and equal bytes, sharing none; on failure it has no user page; the parent does not change; it succeeds exactly if the free list holds a page for each of the parent's user pages and the tables the child lacks |
| `Fork.Bystander` | reference/xv6-riscv/kernel/vm.c:298-326 | an operation within one address space and the free list leaves another one with the same translations, bytes and pages |
| `Fork.CopyWhole` | os-kernel/kernel/vm.c:283-311 | a complete copy agrees with the parent on every user page |
| `Spaces.UvmFree` | reference/xv6-riscv/kernel/vm.c:284-290 | all pages of the address space return to the free list |
| `Spaces.ProcPagetable` | reference/xv6-riscv/kernel/proc.c:175-205 | trampoline and trapframe and no user memory; it succeeds exactly if three pages are free, and otherwise no page is lost; the way back from the second mapping is never taken |
| `Spaces.ProcFreePagetable` | reference/xv6-riscv/kernel/proc.c:209-215 | exactly the pages the space owned become free, not the trampoline or the trapframe |
| `ProcMemory.OneChangedKeeps` | reference/xv6-riscv/kernel/proc.c:109-305 | if one process trades pages with the free list only, every page still has exactly one owner, none is lost, and all other processes are unchanged |
| `ProcMemory.Processes.constructor` | reference/xv6-riscv/kernel/kalloc.c:26-31 | at boot every allocatable page is accounted for |
| `ProcMemory.Processes.AllocProc` | reference/xv6-riscv/kernel/proc.c:109-150 | a new process with a trapframe and an empty space exactly if four pages are free; otherwise nothing happened |
| `ProcMemory.Processes.FreeProc` | reference/xv6-riscv/kernel/proc.c:155-171 | exactly the pages of the process become free |
| `ProcMemory.Processes.Kfork` | reference/xv6-riscv/kernel/proc.c:258-305 | the child reads what the parent reads, has its registers with a0 == 0, and shares no page; or there is no child and no page is lost; the fork succeeds exactly if the free list before the call holds four pages, one for each user page of the parent, and the tables over these |
| `ProcMemory.Processes.Sbrk` | reference/xv6-riscv/kernel/sysproc.c:39-65 | only the caller changes, and pages are conserved; eager growth succeeds exactly if it stays below TRAPFRAME and the free list pays for it, lazy growth exactly if it stays below TRAPFRAME |
| `ProcMemory.Processes.Fault` | reference/xv6-riscv/kernel/trap.c:37-95 | a page fault changes nothing that any process can read; the page comes into being exactly if it is absent, below the size, and the free list pays for it |
| `ProcMemory.Processes.Deliver` | reference/xv6-riscv/kernel/vm.c:344-377 | a later copyout to one process never shows in another; it stops only at a page the process may not write, or at an absent one that there is no memory for |
| `ProcMemory.ForkReadsSame` | os-kernel/kernel/vm.c:283-311 | after fork copyin reads the same bytes from parent and child |
| `FreeBlocks.Canonical` | reference/xv6-riscv/user/umalloc.c:24-44 | an address-ordered, fully coalesced list is determined by its units, so free has only one possible result |
| `FreeBlocks.InsertedGood` | reference/xv6-riscv/user/umalloc.c:24-44 | joining on neither, either or both sides keeps the list ordered, disjoint and fully coalesced |
| `FreeBlocks.InsertedUnits` | reference/xv6-riscv/user/umalloc.c:24-44 | free adds exactly the units of the block |
| `FreeBlocks.TakenGood` | reference/xv6-riscv/user/umalloc.c:63-90 | taking a whole block or the end of one keeps the list ordered and coalesced |
| `FreeBlocks.TakenUnits` | reference/xv6-riscv/user/umalloc.c:63-90 | malloc removes exactly the units it hands out |
| `FreeBlocks.TakeThenFree` | reference/xv6-riscv/user/umalloc.c:24-90 | freeing what was just allocated restores the free list |
| `Umalloc.InsertedLinks` | reference/xv6-riscv/user/umalloc.c:24-44 | the pointer writes of free make the ring of the new list |
| `Umalloc.TakenLinks` | reference/xv6-riscv/user/umalloc.c:63-90 | the pointer and size writes of malloc make the ring of the new list |
| `Umalloc.Heap.constructor` | reference/xv6-riscv/user/umalloc.c:21-22 | before the first call there is nothing but the base header |
| `Umalloc.Heap.FindSpot` | reference/xv6-riscv/user/umalloc.c:30-32 | the search of free ends, wherever freep points, at the block that the freed one belongs behind |
| `Umalloc.Heap.GiveBack` | reference/xv6-riscv/user/umalloc.c:24-44 | the ring afterwards is the coalesced list |
| `Umalloc.Heap.Free` | reference/xv6-riscv/user/umalloc.c:24-44 | the block is no longer live; every granted unit is still free or live, never both |
| `Umalloc.Heap.Morecore` | reference/xv6-riscv/user/umalloc.c:46-61 | for every nu: 0 exactly when the kernel refuses; death exactly when the store at the old break faults; otherwise a block of nu units (4096 at least) from the old break on is free, and the heap is as the kernel granted it if and only if nu < 2^27 |
| `Umalloc.Heap.Malloc` | reference/xv6-riscv/user/umalloc.c:63-90 | for every uint nbytes: a new live block of the right size disjoint from all others, or 0, or death in morecore, with the exact condition of each; it asks the kernel at most once, exactly when no free block fits; some unit in use was never granted if and only if it asked and nbytes > 0x7fffffe0 |
| `Umalloc.Heap.OtherSbrk` | reference/xv6-riscv/user/ulib.c:152-156 | other code may move the break up or down; the heap stays valid if and only if none of its units lies above the new break |
| `Umalloc.NeverBoth` | reference/xv6-riscv/user/umalloc.c:63-90 | no unit is free and live |
| `Umalloc.LiveDisjoint` | reference/xv6-riscv/user/umalloc.c:63-90 | live blocks have no unit in common |
| `Umalloc.AskedIsEnough` | reference/xv6-riscv/user/umalloc.c:46-61 | morecore asks sbrk(int) for as much as it goes on to use if and only if it needs fewer than 2^27 units |
| `Umalloc.LargestRequest` | reference/xv6-riscv/user/umalloc.c:46-90 | a malloc asks for enough if and only if nbytes <= 0x7fffffe0 |
| `Umalloc.LastUnit` | reference/xv6-riscv/user/umalloc.c:46-61 | the last unit of the block morecore makes was granted if and only if nu < 2^27, for every break and heap |
| `Umalloc.Claims` | reference/xv6-riscv/user/umalloc.c:46-61 | all units of that block were granted, and the break is past them, if and only if nu < 2^27 |
| `Umalloc.TrapsWhen` | reference/xv6-riscv/kernel/vm.c:458-478 | morecore's store never faults within the bound, nor at the very largest request, which grows the process by 16 bytes; between them, it faults exactly at a page boundary if the break stays, and always if the break goes down by a page or more |
| `Umalloc.Delivered` | reference/xv6-riscv/user/umalloc.c:63-90 | a request past the bound is handed the units from the old break on, one of which was not granted |
| `Umalloc.FirstTooLarge` | reference/xv6-riscv/user/umalloc.c:46-90 | malloc(0x7fffffe1) on a fresh heap whose break is inside a page: it returns a block with a unit that was never granted |
| `FsState.OwnedOnce` | reference/xv6-riscv/kernel/fs.c:67-107 | a block marked in use is metadata or is in exactly one slot of one inode; a free one is in none |
| `FsState.Assigned` | reference/xv6-riscv/kernel/fs.c:406-445 | filling an empty slot with a free block keeps ownership |
| `FsState.Released` | reference/xv6-riscv/kernel/fs.c:449-477 | a block in a slot is marked in use, so "freeing free block" is unreachable; emptying the slot keeps ownership |
| `FsState.AddAddrOk` | reference/xv6-riscv/kernel/fs.c:411-433 | a new direct address or indirect pointer moves that slot and no other |
| `FsState.AddEntryOk` | reference/xv6-riscv/kernel/fs.c:432-440 | a new entry of an indirect block moves that slot and no other |
| `FsState.WordSet` | reference/xv6-riscv/kernel/fs.c:432-440 | storing an entry in an indirect block changes that entry and no other |
| `FsState.FilledKeepsFiles` | reference/xv6-riscv/kernel/fs.c:406-445 | allocating blocks changes the contents of no file and makes no hole |
| `FsState.PutBytes` | reference/xv6-riscv/kernel/fs.c:529-565 | writing a data block changes the bytes of that block of that file and of no other |
| `FsState.WritingPut` | reference/xv6-riscv/kernel/fs.c:543-555 | a round of writei extends the bytes stored, also when the source fails part of the way |
| `FsCode.FileSystem.Balloc` | reference/xv6-riscv/kernel/fs.c:67-90 | the first free block, never metadata, marked and zeroed; 0 exactly when all are marked |
| `FsCode.FileSystem.Bfree` | reference/xv6-riscv/kernel/fs.c:93-107 | clears one mark |
| `FsCode.FileSystem.Bmap` | reference/xv6-riscv/kernel/fs.c:406-445 | the block of file block bn across the direct and indirect ranges, allocated if missing; only its slot and the indirect pointer may change, and ownership is kept; the set of blocks it logged, exactly, and that no log_write found more in the log than there is at the end |
| `FsCode.FileSystem.Itrunc` | reference/xv6-riscv/kernel/fs.c:449-477 | exactly the blocks the file referred to lose their marks; ownership is kept; every block on disk that it changed was logged |
| `FileIo.Readi` | reference/xv6-riscv/kernel/fs.c:495-520 | the matching slice of the file, clipped at its end and at 32-bit wrap-around; it allocates and logs nothing |
| `FileIo.Writei` | reference/xv6-riscv/kernel/fs.c:529-565 | refused exactly for the three errors; otherwise the file is the old one with the stored bytes laid over it, without holes, other files untouched; it stops short only where the file has no block and the disk none to give, or in the round in which the source turns bad; the set of blocks it logged, exactly; every block on disk that it changed is among them; a chunk adds at most MAXOPBLOCKS to the log, and each of its log_writes finds at most MAXOPBLOCKS - 1 of them there |
| `FileIo.WrittenAll` | reference/xv6-riscv/kernel/fs.c:529-565 | when all bytes count, the file is the overlay of the old file and the data |
| `FileIo.WriteLoop` | reference/xv6-riscv/kernel/fs.c:543-555 | the rounds of a chunk: at most four, and a block entered in its middle is not new |
| `WriteBudget.ChunkFits` | reference/xv6-riscv/kernel/file.c:149-165 | for every offset, file size and disk size a chunk logs at most MAXOPBLOCKS distinct blocks, and fewer before its last log_write |
| `ChunkExtremes.TightChunk` | reference/xv6-riscv/kernel/file.c:149-165 | the bound is reached: appending a chunk at 10241 on a disk with scattered free blocks logs exactly MAXOPBLOCKS blocks |
| `WriteDisk.TightRun` | reference/xv6-riscv/kernel/file.c:149-165 | there is such a disk, and such a run |
| `WriteBudget.Tight` | reference/xv6-riscv/kernel/file.c:149-165 | four data blocks, three of them new, a new indirect block, their four bitmap blocks and the inode make MAXOPBLOCKS |
| `WriteBudget.CourseMapped` | reference/xv6-riscv/kernel/fs.c:543-555 | a round of writei fills the slot of its own file block and at most the indirect pointer |
| `WriteBudget.HoleTooMany` | reference/xv6-riscv/kernel/file.c:149-165 | if the first block of such a chunk were missing too, a fifth bitmap block would exceed MAXOPBLOCKS |
| `ChunkExtremes.WriteOverHoles` | reference/xv6-riscv/kernel/fs.c:529-565 | writei on a disk whose files may have holes: its rounds, and the set of blocks it logged, exactly |
| `ChunkExtremes.HoleChunk` | reference/xv6-riscv/kernel/file.c:149-165 | on such a disk a chunk written into a hole logs more than MAXOPBLOCKS blocks |
| `WriteDisk.HoleRun` | reference/xv6-riscv/kernel/file.c:149-165 | there is such a disk, and such a run |
| `WriteDisk.DiskOk` | reference/xv6-riscv/kernel/fs.c:67-107 | a disk with 124 files on which all blocks but five are in exactly one slot |
| `WriteDisk.DiskFiles` | reference/xv6-riscv/kernel/fs.c:67-107 | each of its files has exactly the blocks below its size |
| `FileIo.FileWrite` | reference/xv6-riscv/kernel/file.c:134-179 | all of the data is in the file and the offset past it, or -1 for one of four reasons, each tied to where the offset came to stand (nowhere to begin, no room in a file for the next chunk, no block for the next byte, a bad source within a block of it), with the first n bytes laid over the file and the offset moved by at most n; every operation on the way logs at most MAXOPBLOCKS blocks, and none of its log_writes finds MAXOPBLOCKS already there; there are as many operations as chunks, and each logged every block it changed and left the files in order |
| `FileIo.OverlaidTwice` | reference/xv6-riscv/kernel/file.c:149-165 | writing chunk after chunk is one write |
| `FileIo.WrittenPart` | reference/xv6-riscv/kernel/fs.c:529-565 | however far a writei gets, the file is the overlay of the old file and a prefix of the data |
| `FsImage.CarriedHolds` | reference/xv6-riscv/kernel/fs.c:529-565 | if an operation logs every block it changes, and those hold the new state, then the whole disk does: data, bitmap and inode blocks |
| `FsImage.SoundIfOk` | reference/xv6-riscv/kernel/fs.h:31-50 | whether the files on a disk are in order does not depend on how the state was read off it |
| `FsImage.WholeOpIsSound` | reference/xv6-riscv/kernel/fs.c:67-565 | a whole operation takes a disk with its files in order to such a disk |
| `FsEncode.EncodeHolds` | reference/xv6-riscv/kernel/fs.h:31-50 | every state of the file system has a disk: decoding words, bytes, bits and dinodes undoes encoding them |
| `FsEncode.TraceIsPath` | reference/xv6-riscv/kernel/file.c:149-165 | the operations that filewrite makes of one write are whole operations on the disk, one after the other |
| `CrashSafe.RecoversWhole` | reference/xv6-riscv/kernel/log.c:10-24 | over every run, with crashes anywhere, what recovery would produce has every property that held at the start and that the operations between two quiet moments keep together |
| `CrashSafe.CrashLeavesFilesOk` | reference/xv6-riscv/kernel/log.c:10-24 | over every run whose operations have the effect of whole operations in some order, a crash at any moment leaves a disk with its files in order: each block in at most one place, no holes, the bitmap right |
| `Rings.IndexSurvivesExactly` | reference/xv6-riscv/kernel/pipe.c:11 | a 32-bit counter may wrap without disturbing the buffer index if and only if the size divides 2^32 |
| `Rings.WrappedDistance` | reference/xv6-riscv/kernel/pipe.c:76-143 | equality and difference of wrapped counters tell the true occupancy |
| `Rings.Pipe.constructor` | reference/xv6-riscv/kernel/pipe.c:22-56 | an empty open pipe |
| `Rings.Pipe.Write` | reference/xv6-riscv/kernel/pipe.c:76-109 | accepts bytes in order, sleeps only when full, never overwrites an unread byte; returns the count, or -1 exactly if the pipe is closed, the caller is killed or the first byte cannot be copied |
| `Rings.Pipe.Read` | reference/xv6-riscv/kernel/pipe.c:111-143 | the oldest unread bytes, in order, as many as are wanted, there and deliverable; -1 exactly if there is one and the first cannot be delivered; a byte the reader cannot take stays |
| `Rings.Pipe.Close` | reference/xv6-riscv/kernel/pipe.c:58-74 | the second close is the one that frees |
| `Rings.Console.constructor` | os-kernel/kernel/console.c:97-103 | an empty ring |
| `Rings.Console.Interrupt` | os-kernel/kernel/console.c:120-146 | stores a character unless NUL or full, hands over by character or by line, and a full ring is always handed over |
| `Rings.Console.Read` | os-kernel/kernel/console.c:149-186 | the oldest characters in order, up to a newline; sleeps only when all that was handed over is taken; one character is lost when the copy fails |
| `Rings.FirstInFirstOut` | reference/xv6-riscv/kernel/pipe.c:76-143 | over every lawful sequence of writes and reads the bytes removed are a prefix of the bytes accepted |
| `Rings.PipeInOrder` | reference/xv6-riscv/kernel/pipe.c:76-143 | the calls made on a pipe are such a sequence, whatever they were: what was read is a prefix of what was written, at most 512 bytes behind |
| `Rings.ConsoleInOrder` | os-kernel/kernel/console.c:120-186 | the same for the console, at most 128 characters behind |
| `Regex.MatchHere` | reference/xv6-riscv/user/grep.c:85-97 | terminates, and is true exactly when some prefix of the text is in the language of the pattern (and is all of it under a final $) |
| `Regex.MatchStar` | reference/xv6-riscv/user/grep.c:100-108 | true exactly when some run of fitting characters can be followed by the rest of the pattern |
| `Regex.Match` | reference/xv6-riscv/user/grep.c:72-82 | true exactly when the pattern is found at the beginning (^) or at some position, for every pattern and text |
| `Regex.HereMany` | reference/xv6-riscv/user/grep.c:85-97 | the meaning of c* as concatenation of languages agrees with trying every length of the run |

## Left out

- Umalloc.Heap.Malloc: block sizes are unbounded integers, where the source has 32 bits (a free block of 64 GB would be needed); the break is a multiple of 16, and all pages below it are mapped.
- UserMem.UvmAlloc: a newsz past TRAPFRAME is allowed only where memory runs out first, as it does in exec with sizes from an ELF file; where it did not, mappages would panic on the trapframe page.
- ProcProof.NoLostWakeup: says nothing about how soon a killed process notices; kkill may land between the check and the sleep.
- Rings.Pipe.Write: no claim that readers are woken when a writer is killed part of the way; the source returns without a wakeup there.
- Rings.Console.Read: the echo and the output side of the console are not modelled.
- Locks: spinlock sections are single steps; acquire's spinning, interrupts on the same CPU and weak memory order are not modelled.
- Log and cache: memmove into a buffer and the bwrite after it are one step; the machine may evict any unreferenced buffer (BufferList fixes which one); "bget: no buffers" is a process that cannot go on.
- Counters without wrap-around: ncommit, pids and the in-memory reference counts are unbounded integers; the 16-bit and 32-bit ring indices do wrap.
- Device failures, and the setup of the virtio queues.
- The bump allocator of os-kernel/kernel/vm.c (it never frees); its page-table operations are those modelled here over the free list of kalloc.c.
- The kernel page table, the TLB, the A and D bits of a PTE, uvmclear, and exec.
- Bitmap bytes: bit b % 8 of byte b / 8 is position b of a sequence of booleans.
- CrashSafe.CrashLeavesFilesOk: that operations which overlap have the effect of the same ones in some order is a condition (`Serial`); inode and buffer locks, which bring it about, are modelled only for single buffers.
- FsEncode.TraceIsPath: for bytes and addresses in the range of their C types, and with the fields of a dinode that the model lacks (type, links, device) zero.
- LogSleep.NoLostLogWakeup: like all results on runs it is about safety; SomeoneWillWake says who has to act, not that the scheduler lets it.
- LogProgress.CommitFinishes: like RecoveryFinishes and VirtioProgress.AllReturn it says that there is a way to go on, not that the scheduler takes it; other processes are assumed to hold no buffer meanwhile.
- WriteDisk.TightRun: the disk is larger than the 2000 blocks mkfs makes, and is built, not written by a run of the code.
- Concurrent use of one file system: the methods of FsCode and FileIo are what a process does under the inode lock within one transaction, reading blocks as a plain map, which LogProof.ReadsAreCurrent justifies.
- The inode table, link counts, directories, path names, ialloc, ireclaim and the file table: mostly plumbing over the operations modelled.
- The program's own writes to allocated memory: the allocator model assumes that programs do not write to headers.
- grep's buffer loop, the shell and the other user programs, printf, uart, plic and boot code.
