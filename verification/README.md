# Kernel IPC, hotplug, initramfs and resource image: models and proofs

Dafny models of the hard C code under `common/sdk_linux`, each in the form of its source: classes whose
methods change fields and arrays step by step, proved against functions on values; and lemmas about those
functions over every input, every run or every interleaving. Run `dafny verify dfyconfig.toml` to check
all of it.

How the files fit together, component by component. `XSpec` says what the code is meant to compute, the
file named after the class refines it, the others prove what it is good for.

| component | specification | refinement | results |
|---|---|---|---|
| semaphore locking | SemLock | (an interleaving step relation) | SemLock, SemLocal, SemOverlap, SemSystem |
| semaphore sets | SemOps, SemSpec | SemArray | SemAnswers, SemRuns, SemHistory, SemSleepers, SemOrder, SemUndo, SemStale |
| message queues | MsgSpec | MsgQueue | MsgAnswers, MsgRuns, MsgHistory |
| initramfs unpacker | CpioSpec | Initramfs | CpioHeader, CpioArchive, CpioFeed, CpioChunks |
| CPU hotplug | CpuhpSpec | Cpuhp | CpuhpAnswers, CpuhpWalk, CpuhpBoot |
| IPC identifiers | IpcSpec | IpcIds | IpcAnswers, IpcRuns |
| shared memory | ShmSpec | Shm | ShmAnswers, ShmRuns |
| SHA-1, SHA-256 | ShaSpec (FIPS 180-4) | ShaBlock, Sha1, Sha256 | ShaBits, ShaStream, ShaVectors |
| resource image | ImageSpec | Image | ImageSpec, ImageAnswers |

Numbers has the facts about quotients and remainders that several components need. The files called XAnswers
say what each call answers and what it leaves behind in terms of the caller's arguments and of what is there
(values, flags, objects, bytes by their place), without the functions of XSpec that compute it.

**Semaphores.** The lock protocol is a step relation over any number of threads and semaphores, one shared
access at a time; the shortcuts of `sem_lock()` and `complexmode_enter()` are steps of their own. Simple
operations that overlap, each under the lock of its own semaphore, are proved to do what they do one after
the other in the order in which the locks are released; and SemSystem puts the protocol and the set together:
threads with and without the global lock, step by step, lead to what their operations lead to one by one. The set
itself is an object with arrays of values and queues. `update_queue()`, with the restarts it skips and
its early exit, is proved to do what "finish the first request of the queue that does not have to sleep, and look
again" does, and over all runs nobody who could go on sleeps, every sleeper is in a queue or has been woken or
has given up, the queues are in one of their two modes, sleepers on a semaphore stay in their order of arrival,
and each value, each adjustment and their sum are what was earned.

**Message queues.** Every call and every resumption after a sleep is one action; a run is any interleaving
of them on any number of queues. A ghost history of each queue records what was accepted, taken, returned
and freed, in order.

**Unpacker.** The eight-state table with its buffers is proved equal to an automaton that looks at one byte
at a time. Of the automaton it is proved that an archive of well-formed entries, however it is cut, does to the
file system what is written down entry by entry from the entries themselves; and chunk invariance on any stream,
with its exact condition.

**Hotplug.** What a callback returns is any function of the calls made so far; the log of all calls is part
of the state, so "taken back exactly once" is a statement about that log.

**Identifiers and segments.** Allocation histories, user counts and the fate of removed segments over every run
of the calls.

**Hashes and images.** The block functions are proved against FIPS 180-4 word by word, streaming against
the digest of the whole message, and unpacking against packing. The constants and rotations are held down by the
example digests of the standard, computed through padding, schedule and rounds.

## Where the code does less than its comments or its callers expect

Each of these is proved of the code as it is.

- A complex request that waits for several semaphores to be zero may go on sleeping although it would by
  now fail with EAGAIN: raising a semaphore is no reason to look at it (`SemStale.SleeperFailsIff`, with a run in
  `SemStale.StaleSleeper`). It never goes on sleeping when it could succeed.
- The unpacker's result depends on where the stream is cut exactly when the header of an irregular entry
  is completed in it: then `next_state` holds what was left over from before
  (`CpioChunks.ChunkInvariantIff`, with a stream in `CpioFeed.NamelessShows`).
- `cpuhp_invoke_callback()` without `lastp` overwrites the error of a failed instance with the result of
  the rollback (`CpuhpBoot.ErrorIsLostIff`, and `CpuhpBoot.ErrorIsLost` for a step where it does).
- A kick to the state a CPU is in reads the result left by the kick before
  (`CpuhpBoot.KickToSelfIff`; `CpuhpBoot.FailureThenSelf` is how that comes about).
- `write_index_tbl()` works out places and sizes as ints of 32 bits. It fails exactly if a file is empty, if
  it has whole blocks but the low 32 bits of its size do not come to one, or if a block to be written starts at
  2 GiB or above, all counted in 32 bits (`Image.ImageFile.WriteIndexTbl`); below 4 GiB that is: an empty file,
  one of 2 GiB or more, or a block from 2 GiB on (`ImageSpec.StorableWhenShort`). When it succeeds, the image
  unpacks to what was packed if and only if no file has 4 GiB or more and every path fits
  (`Image.ImageFile.Pack`): a file of 4 GiB and 512 bytes is packed with success, and 512 bytes of it come back
  (`ImageSpec.WrappedSize`).
- Merging the queues of the semaphores into that of the set is said to keep FIFO order (sem.c:308-309). It does
  for each semaphore; between semaphores exactly if, of any two, everybody on the one with the larger number
  came first (`SemOrder.MergeInTimeIff`). Three calls lead to a queue that is out of order, in which
  `update_queue()` would pass over the oldest request that can go on (`SemOrder.OutOfOrder`); while a queue is
  in order it takes the oldest one (`SemOrder.FirstReadyIsOldest`), and not always otherwise
  (`SemOrder.FirstIsOldestIff`).
- A stale identifier is accepted again after a whole number of rounds of the sequence counter
  (`IpcRuns.StaleIdIff`; `IpcRuns.StaleIdAccepted` is a run in which that happens).

## Model

A method whose third column says what a call does is proved equal
to the function of that call on the state before; the lemmas beside it say what is true of that function.

| member | source | states |
|---|---|---|
| `SemLock.SectionsExclude` | common/sdk_linux/ipc/sem.c:335-466 | For every number of threads and semaphores and every interleaving of single shared accesses: the global section excludes itself and every per-semaphore section, a per-semaphore section excludes itself, no multi-operation request sleeps while anybody is in a per-semaphore section, and the counter is in 0..10 and positive inside the global section |
| `SemLock.ShortcutNeedsNoDrain` | common/sdk_linux/ipc/sem.c:335-356 | Finding the counter positive, complexmode_enter() may skip the drain: the next step enters the section and no thread is inside a per-semaphore section at that moment |
| `SemLock.NoDeadlock` | common/sdk_linux/ipc/sem.c:335-466 | A thread that is not idle can run, or the owner of the lock it waits for can, or the owner of the lock that one waits for can: waiting chains never close |
| `SemLock.StepKeepsInv` | common/sdk_linux/ipc/sem.c:335-466 | Each single step of each thread keeps the invariant behind the three results above |
| `SemLocal.SimpleOperationIsLocal` | common/sdk_linux/ipc/sem.c:386-454 | With the counter at zero, a semop() on one semaphore leaves values, adjustments and queues of every other semaphore, the queues of the set and both counters alone, even when it wakes sleepers: its semaphore's lock is enough |
| `SemOverlap.OwnPartDecides` | common/sdk_linux/ipc/sem.c:386-454 | And what a semop() on one semaphore returns, leaves there and wakes depends on the value, adjustments and queues of that semaphore alone: two sets that agree on these agree on the outcome |
| `SemOverlap.OverlapIsSerial` | common/sdk_linux/ipc/sem.c:386-466 | Any interleaving of taking and releasing the locks of single semaphores, each operation working on the set as it was when it took its lock and putting its own semaphore's part back on release, ends in the state of the same operations run one after the other in the order of the releases |
| `SemOverlap.OverlapStaysReachable` | common/sdk_linux/ipc/sem.c:386-466 | So from a reachable set such interleavings lead to reachable sets only, and every result about all runs holds for them |
| `SemSystem.SystemIsSerial` | common/sdk_linux/ipc/sem.c:335-466 | The locks and the set together: any number of threads, each with an operation on one semaphore or on the whole set, take steps of the protocol in any order; at every moment the set is the one that the operations put into effect so far lead to one by one in that order, and the locks are in a state of the protocol |
| `SemSystem.SystemIsQuiet` | common/sdk_linux/ipc/sem.c:335-466 | So at every moment nobody sleeps in it who could go on; and when all threads are idle, use_global_lock and complex_count as the threads see them are those of the set |
| `SemSystem.ReleaseMove` | common/sdk_linux/ipc/sem.c:386-466 | A thread that worked on its semaphore as it found it puts back what its operation makes of the set as it is by now, with the same result, although others were at work on other semaphores and a thread may be waiting to take the whole set |
| `SemSystem.NoComplexMode` | common/sdk_linux/ipc/sem.c:386-454 | A thread that enters the section of a semaphore finds the counter at zero, and so have all operations on the set left it |
| `SemSystem.StepCounts` | common/sdk_linux/ipc/sem.c:335-376 | Each operation under the global lock leaves the counter one lower than it is inside its section (10, or what it was for an operation on one semaphore), unless a complex request sleeps: then as it is there |
| `SemOps.ScanRequest` | common/sdk_linux/ipc/sem.c:2070-2093 | Largest semaphore number, undo and alter flags of a request; the bit mask modulo BITS_PER_LONG reports a duplicate exactly when an operation falls on the bit of an altering one before it, and no report means that there is no duplicate |
| `SemOps.NoCollisionNoDup` | common/sdk_linux/ipc/sem.c:2070-2093 | The mask errs on one side only: no collision of bits implies that no operation follows an altering one on the same semaphore |
| `SemOps.AfterInRange` | common/sdk_linux/ipc/sem.c:662-690 | Operations that pass the tests keep every value in 0..SEMVMX and every adjustment in -SEMAEM-1..SEMAEM |
| `SemOps.WaitForZero` | common/sdk_linux/ipc/sem.c:668-670 | A request without altering operation succeeds exactly when every semaphore it names is zero, and then changes nothing |
| `SemOps.SingleDecrement` | common/sdk_linux/ipc/sem.c:672-675 | A single decrement sleeps, or gets EAGAIN with IPC_NOWAIT, exactly while the value is too small, and otherwise lowers that value only |
| `SemOps.SingleSleeper` | common/sdk_linux/ipc/sem.c:843-853 | A request of one operation that sleeps decrements or waits for zero, and has no IPC_NOWAIT |
| `SemAnswers.RequestDoneIff` | common/sdk_linux/ipc/sem.c:649-690 | A request of any length succeeds if and only if each operation, on the value and adjustment that those before it leave, finds zero where it waits for zero, leaves a value in 0..32767 and, with SEM_UNDO, an adjustment in -32768..32767; the set is then as all operations leave it |
| `SemAnswers.AfterAddsUp` | common/sdk_linux/ipc/sem.c:676-690 | What the operations before leave: each adds its number to the value of its semaphore and, with SEM_UNDO, takes it off the adjustment, and touches nothing else |
| `SemAnswers.RequestStopsAt` | common/sdk_linux/ipc/sem.c:649-726 | At the first operation that does not pass: ERANGE exactly if it does not block, EAGAIN exactly if it blocks and has IPC_NOWAIT, otherwise sleep |
| `SemAnswers.SemopAnswer` | common/sdk_linux/ipc/sem.c:2029-2228 | So semop() returns 0, -34, -11 or goes to sleep, by the values and adjustments of the set and the caller's operations and flags alone |
| `SemAnswers.FinishAnswer` | common/sdk_linux/ipc/sem.c:967-1016 | And a sleeper that alters the set is woken with the answer of its request on the set as it is then |
| `SemAnswers.LeaveAnswers` | common/sdk_linux/ipc/sem.c:871-899 | So is each one that waits for zero |
| `SemArray.Array.PerformSlow` | common/sdk_linux/ipc/sem.c:649-726 | All operations are applied, or values and adjustments are what they were before; result and blocking operation are those of the request as a whole |
| `SemArray.Array.Rollback` | common/sdk_linux/ipc/sem.c:714-724 | Taking back the first k operations, newest first, restores values and adjustments exactly |
| `SemArray.Array.Perform` | common/sdk_linux/ipc/sem.c:728-799 | The two-pass form for requests without duplicates has the same new state, result and blocking operation as the slow form, for every request |
| `SemArray.Array.Semtimedop` | common/sdk_linux/ipc/sem.c:2040-2228 | EINVAL, E2BIG and EFBIG leave the set alone (but for a new undo structure); otherwise the operation is carried out on the caller's undo structure |
| `SemArray.Array.AllocUndo` | common/sdk_linux/ipc/sem.c:1949-2027 | A caller without an undo structure gets one of zeros; nothing else changes but the counter |
| `SemArray.Array.SemLock` | common/sdk_linux/ipc/sem.c:386-454 | Which lock is taken and what becomes of the counter, as one operation sees it |
| `SemArray.Array.SemUnlock` | common/sdk_linux/ipc/sem.c:456-466 | Unmerging and leaving complex mode when no complex request sleeps; nothing otherwise |
| `SemArray.Array.MergeQueues` | common/sdk_linux/ipc/sem.c:312-320 | The queue of each semaphore is put in front of what is there: afterwards those of the semaphores stand in descending order of the semaphores, each in its own order, and the old queue of the set behind them; the queues of the semaphores are empty |
| `SemArray.Array.UnmergeQueues` | common/sdk_linux/ipc/sem.c:280-301 | Every request goes behind those of its own semaphore, in order; nothing while complex requests sleep |
| `SemArray.Array.ComplexmodeTryleave` | common/sdk_linux/ipc/sem.c:362-376 | The counter goes down by one, and from one to zero, only when no complex request sleeps |
| `SemHistory.MergeThenUnmerge` | common/sdk_linux/ipc/sem.c:280-320 | Merging and unmerging again gives back every queue exactly |
| `SemOrder.MergeOrder` | common/sdk_linux/ipc/sem.c:303-320 | The merged queue: for every k, all who sleep on semaphores from k on stand in front of all who sleep on those below k, and both in front of those who were on the queue of the set |
| `SemOrder.MergeInTimeIff` | common/sdk_linux/ipc/sem.c:303-320 | For every assignment of times of arrival by which each semaphore's queue is in order: the merged queue is in order if and only if, of any two semaphores, nobody on the one with the smaller number came before somebody on the other |
| `SemOrder.OutOfOrder` | common/sdk_linux/ipc/sem.c:303-320 | It can be out of order: decrements of semaphore 0, of semaphore 1 and of both, asked for in that order, leave the second in front of the first, and with both semaphores at one the second would be finished first |
| `SemOrder.FirstReadyIsOldest` | common/sdk_linux/ipc/sem.c:967-1016 | While a queue is in order of arrival, the first request that does not have to sleep is the oldest such request |
| `SemOrder.FirstIsOldestIff` | common/sdk_linux/ipc/sem.c:967-1016 | And only then: the first ready request is the oldest ready one, whichever of the queue are ready, if and only if the queue is in order of arrival |
| `SemOrder.ArrivalOrder` | common/sdk_linux/ipc/sem.c:280-320 | After every run since the creation of the set, in either mode, the sleepers that alter the set and name a semaphore first are in the order in which they went to sleep |
| `SemOrder.EnqueueLine` | common/sdk_linux/ipc/sem.c:2187-2218 | A sleeper joins the end of its semaphore's line, whether or not that makes the queues merge |
| `SemOrder.StepLine` | common/sdk_linux/ipc/sem.c:280-320 | No operation on a set reorders a line: those left are those before, in order, and the new sleeper behind them |
| `SemArray.Array.EnqueueRequest` | common/sdk_linux/ipc/sem.c:2187-2218 | The sleeper is appended to the right one of the four kinds of queue, with the merge and the count that a complex request needs |
| `SemHistory.EnqueueQuiet` | common/sdk_linux/ipc/sem.c:2187-2218 | A request that has to sleep, put into a quiet set, leaves it quiet |
| `SemHistory.QueueModes` | common/sdk_linux/ipc/sem.c:280-376 | At every unlocked point of every run: the count is that of the queued complex requests; when positive the simple alter queues are empty and the counter is positive; when zero both queues of the set are empty and the others hold single decrements of their own semaphore; values and adjustments are in range |
| `SemArray.NoRestartNeeded` | common/sdk_linux/ipc/sem.c:831-855 | The claim in the comment of check_restart(): after a request that failed, or after a single decrement with the queue of the set empty, none of the older requests can go on |
| `SemArray.FirstReadyIsServed` | common/sdk_linux/ipc/sem.c:967-1016 | If all before entry i sleep and entry i does not, serving the queue starts by finishing entry i |
| `SemArray.NothingAtZero` | common/sdk_linux/ipc/sem.c:984-990 | The early exit at value zero: no single decrement on a semaphore that is zero can go on |
| `SemArray.Array.CheckRestart` | common/sdk_linux/ipc/sem.c:831-855 | A restart is asked for exactly if the queue of the set is in use or the finished request was complex |
| `SemArray.Array.Advance` | common/sdk_linux/ipc/sem.c:967-1016 | One round of the scan keeps what serving the queue from here leads to, and either goes on by one entry or has removed one |
| `SemArray.Array.UpdateQueue` | common/sdk_linux/ipc/sem.c:967-1016 | The scan with skipped restarts and early exit ends, always, and with the same values, queues, results and wake-ups as finishing over and over the first request of the queue that does not have to sleep |
| `SemSpec.FirstReady` | common/sdk_linux/ipc/sem.c:967-1016 | The policy's choice: everything before it sleeps, and it does not |
| `SemArray.Array.WakeConstOps` | common/sdk_linux/ipc/sem.c:871-899 | Exactly those that wait for zero and do not have to sleep leave, with their results, in order |
| `SemArray.ScanIsWakeConst` | common/sdk_linux/ipc/sem.c:871-899 | Walking the list while entries are taken out of it is the same as sorting it into those that stay and those that leave |
| `SemArray.Array.SmartWakeupZero` | common/sdk_linux/ipc/sem.c:912-949 | The queues of the modified semaphores that are zero, and the queue of the set if one is, are woken |
| `SemRuns.WakeZeroQuiet` | common/sdk_linux/ipc/sem.c:901-949 | Looking only at the modified semaphores is enough if every waiter that could have become possible names one of them |
| `SemArray.Array.DoSmartUpdate` | common/sdk_linux/ipc/sem.c:1049-1088 | Waiters for zero first, then the queue of the set, or else the queues of the increased semaphores only |
| `SemRuns.ServeQuiet` | common/sdk_linux/ipc/sem.c:967-1016 | After serving a queue nobody in it can go on, and nobody who waits for zero can |
| `SemRuns.UpdateAfterRequest` | common/sdk_linux/ipc/sem.c:1069-1077 | The shortcuts of do_smart_update() together: after a request on a quiet set, rescanning only the semaphores it increased and waking only at the zeros it left makes the set quiet again |
| `SemRuns.UpdateAfterAnything` | common/sdk_linux/ipc/sem.c:1049-1088 | With the modified semaphores unknown, the full rescan makes any set quiet |
| `SemHistory.SemopKeepsInv` | common/sdk_linux/ipc/sem.c:2133-2228 | A semop() from lock to unlock keeps the form of the queues, the ranges and quietness |
| `SemHistory.NoLostWakeUp` | common/sdk_linux/ipc/sem.c:871-1088 | Whatever was done to the set since its creation, while it is unlocked every queued alter request and single wait for zero has to sleep on the current values, and no complex wait for zero could succeed |
| `SemSleepers.NobodyIsLost` | common/sdk_linux/ipc/sem.c:831-1224 | Over every run since creation: each request that went to sleep is in one of the queues, or was woken with an answer, or gave up, as many times as it went to sleep |
| `SemStale.SleeperFailsIff` | common/sdk_linux/ipc/sem.c:871-949 | The limit of that: a complex wait for zero on the queue of the set would by now fail with EAGAIN exactly if the first of its operations whose semaphore is not zero has IPC_NOWAIT; it never could succeed |
| `SemStale.StaleSleeper` | common/sdk_linux/ipc/sem.c:871-949 | Such a sleeper exists: a run of three calls that ends with one |
| `SemArray.Array.Setval` | common/sdk_linux/ipc/sem.c:1376-1434 | ERANGE and EINVAL leave the set alone; otherwise the value is set, the adjustments for it are dropped and every queue is served |
| `SemArray.Array.Setall` | common/sdk_linux/ipc/sem.c:1506-1560 | ERANGE leaves the set alone; otherwise all values are set, all adjustments dropped, every queue served |
| `SemArray.Array.ExitSem` | common/sdk_linux/ipc/sem.c:2453-2477 | The adjustments of the exiting owner are added, each value ending at the nearest one in 0..SEMVMX, its structure goes, every queue is served |
| `SemAnswers.ExitIsNearest` | common/sdk_linux/ipc/sem.c:2462-2475 | With the sum of value and adjustment in 0..32767 the value becomes that sum, below it 0, above it 32767: no value in range is nearer to the sum |
| `SemArray.Array.CancelRequest` | common/sdk_linux/ipc/sem.c:2254-2286 | A sleeper that gives up is taken off the queue it is on, and nobody else |
| `SemHistory.CancelKeepsInv` | common/sdk_linux/ipc/sem.c:2254-2286 | Giving up keeps the form of the queues and quietness |
| `SemArray.Array.Freeary` | common/sdk_linux/ipc/sem.c:1169-1224 | Every sleeper of every queue leaves once with EIDRM, in the order of the loops; no undo structure is left |
| `SemArray.ExpelledEach` | common/sdk_linux/ipc/sem.c:1169-1224 | Each of them is woken with -43 |
| `SemUndo.AppliedTotal` | common/sdk_linux/ipc/sem.c:676-690 | A request moves the value of each semaphore by its operations on it, each adjustment by those the owner asked to have undone, the other way round, and so value plus all adjustments by exactly the operations without undo |
| `SemUndo.SemopBalance` | common/sdk_linux/ipc/sem.c:2029-2292 | semop() moves value, each adjustment and their sum by its own operations if it succeeds at once, and by those of the sleepers that it lets complete, each by the operations that count for it |
| `SemUndo.SetValBalance` | common/sdk_linux/ipc/sem.c:1384-1425 | After SETVAL the value of that semaphore is the new one and every adjustment for it zero, plus what sleepers completed since then; other semaphores are moved only by such sleepers |
| `SemUndo.SetAllBalance` | common/sdk_linux/ipc/sem.c:1530-1555 | The same for SETALL and every semaphore |
| `SemUndo.ExitUndoBalance` | common/sdk_linux/ipc/sem.c:2453-2477 | The exit of an owner makes the value the sum of value and adjustment, or the end of 0..32767 that it passes, and the adjustments of other owners stay; the total moves only by what passes the ends |
| `SemUndo.TotalIsEarned` | common/sdk_linux/ipc/sem.c:676-690 | Over every run since creation: each value, each adjustment and value plus adjustments are the sums of the operations that count for them of all requests that completed, at once or as sleepers, apart from the fresh starts of SETVAL and SETALL and the exits |
| `MsgSpec.ConvertModeMeaning` | common/sdk_linux/ipc/msg.c:1002-1028 | The converted mode accepts exactly the messages that msgtyp and MSG_EXCEPT ask for, down to LONG_MIN |
| `MsgSpec.SelectedIsOldestOfType` | common/sdk_linux/ipc/msg.c:1082-1105 | A message chosen without MSG_COPY is the oldest of its own type |
| `MsgQueue.MessageQueue.FindMsg` | common/sdk_linux/ipc/msg.c:1082-1105 | One pass finds the message the mode asks for: the first that passes, the msgtyp-th for MSG_COPY, the first of the least type for a bound; none only if there is none |
| `MsgQueue.MessageQueue.PipelinedSend` | common/sdk_linux/ipc/msg.c:815-843 | The message goes to a sleeping receiver or to nobody, as the search through the receivers in order decides |
| `MsgRuns.OfferMeaning` | common/sdk_linux/ipc/msg.c:815-843 | Who that is: the first receiver in order that asks for the type and has room; each earlier one that asks for the type gets E2BIG, nobody else an answer |
| `MsgRuns.OfferKeeps` | common/sdk_linux/ipc/msg.c:815-843 | A hand-off keeps reply slots in order and leaves no queued message that a waiting receiver would take |
| `MsgQueue.MessageQueue.WakeFittingSenders` | common/sdk_linux/ipc/msg.c:212-235 | The scan that moves entries to the tail while it goes ends, and has woken exactly the senders that fit and moved the others, in order, behind them |
| `MsgHistory.WakeSendersMeaning` | common/sdk_linux/ipc/msg.c:188-235 | Nobody is lost from the list, whoever is not woken does not fit, whoever is newly woken fits |
| `MsgQueue.MessageQueue.SsWakeup` | common/sdk_linux/ipc/msg.c:212-235 | With kill every sender is woken and the list left as it is; without, as above |
| `MsgQueue.MessageQueue.ExpungeAll` | common/sdk_linux/ipc/msg.c:237-251 | Every receiver gets EIDRM, or is woken to try again |
| `MsgQueue.MessageQueue.Msgsnd` | common/sdk_linux/ipc/msg.c:845-961 | The checks on size and type, then one round of sending |
| `MsgQueue.MessageQueue.TryMsgsnd` | common/sdk_linux/ipc/msg.c:879-947 | One round under the lock: EIDRM, hand-off or queueing if it fits, EAGAIN or sleep if it does not |
| `MsgAnswers.MsgsndSends` | common/sdk_linux/ipc/msg.c:879-947 | A message within the limits that fits is accepted: put at the end of the queue and counted, unless a receiver takes it |
| `MsgAnswers.MsgsndDoesNot` | common/sdk_linux/ipc/msg.c:845-947 | One that does not: EINVAL, EIDRM, EAGAIN or sleep, by type, size, queue and flags |
| `MsgAnswers.SenderRunsAgain` | common/sdk_linux/ipc/msg.c:918-934 | What a sender that runs again does, by queue and signal |
| `MsgQueue.MessageQueue.MsgsndResumes` | common/sdk_linux/ipc/msg.c:918-934 | A sender that runs again gets EIDRM if the queue is gone; otherwise it leaves the list, and goes round again unless a signal is pending |
| `MsgQueue.MessageQueue.Post` | common/sdk_linux/ipc/msg.c:937-947 | A message is handed over, or appended and counted in the queue and the namespace |
| `MsgQueue.MessageQueue.TryMsgrcv` | common/sdk_linux/ipc/msg.c:1141-1210 | One round of receiving: the message with its counters, a copy, E2BIG, ENOMSG, EIDRM or sleep |
| `MsgQueue.MessageQueue.DoMsgrcv` | common/sdk_linux/ipc/msg.c:1107-1210 | The checks of MSG_COPY, the conversion of the mode, then one round |
| `MsgAnswers.MsgrcvFinds` | common/sdk_linux/ipc/msg.c:1107-1190 | With a message that the caller's type and flags select: E2BIG and an untouched queue if and only if the buffer is smaller and MSG_NOERROR is off; otherwise exactly that message, taken out and off the counters, or copied and left with MSG_COPY |
| `MsgAnswers.MsgrcvFindsNone` | common/sdk_linux/ipc/msg.c:1107-1210 | With none: ENOMSG if and only if IPC_NOWAIT is set; otherwise the caller sleeps at the end of the list, and a message that is sent fits it exactly if msgtyp and MSG_EXCEPT ask for it, and is too big exactly if the buffer is smaller and MSG_NOERROR is off |
| `MsgAnswers.MsgrcvRefuses` | common/sdk_linux/ipc/msg.c:1107-1140 | Which combinations of MSG_COPY with other flags are refused, and with what |
| `MsgAnswers.ReceiverRunsAgain` | common/sdk_linux/ipc/msg.c:1212-1261 | A receiver that runs again returns with its reply, with EIDRM, with a signal, or looks again |
| `MsgQueue.MessageQueue.MsgrcvResumes` | common/sdk_linux/ipc/msg.c:1212-1261 | A receiver that runs again takes its reply if there is one, and leaves the list otherwise |
| `MsgQueue.MessageQueue.IpcSet` | common/sdk_linux/ipc/msg.c:415-447 | A new limit nudges receivers and wakes the senders that now fit |
| `MsgAnswers.SetLimitWakes` | common/sdk_linux/ipc/msg.c:415-447 | The limit is the new one, and those woken by it are the receivers in the list and the senders whose message now fits |
| `MsgQueue.MessageQueue.Freeque` | common/sdk_linux/ipc/msg.c:261-283 | Everybody asleep is dismissed, the messages go and the counters of the namespace with them |
| `MsgAnswers.RemoveTellsAll` | common/sdk_linux/ipc/msg.c:261-283 | Every receiver in the list is answered EIDRM, every sender is woken, and the messages with their bytes leave the counters |
| `MsgHistory.ApplyKeeps` | common/sdk_linux/ipc/msg.c:845-1261 | Every call and every resumption keeps the invariant of the queue, its history and the counters of the namespace |
| `MsgHistory.NobodyWaitsInVain` | common/sdk_linux/ipc/msg.c:188-251 | In every queue after any run: no queued message would be taken by a receiver in the list, and a sender that sleeps unwoken does not fit |
| `MsgHistory.FifoPerType` | common/sdk_linux/ipc/msg.c:790-843 | For every type, the messages accepted are those taken (in that order), then those queued, then those freed with the queue: per-type order holds although a hand-off bypasses the queue, and every message is in one place only |
| `MsgHistory.TakenMeansReturned` | common/sdk_linux/ipc/msg.c:1157-1261 | What a task took or was handed it returned with, in order, or still holds in its slot |
| `MsgHistory.CountersAgree` | common/sdk_linux/ipc/msg.c:937-947 | q_qnum and q_cbytes are number and bytes of the queued messages; msg_hdrs and msg_bytes the sums over all queues |
| `CpioChunks.ChunkInvariance` | common/sdk_linux/init/initramfs.c:192-463 | Two ways of cutting a stream without irregular header into buffers have the same effects, message, hard-link table and point of resumption |
| `CpioChunks.ChunkInvariantIff` | common/sdk_linux/init/initramfs.c:192-463 | Cutting never shows, for any beginning of the stream, if and only if no header with a name length out of range, a link target over PATH_MAX or a body on neither file nor link is completed in it |
| `CpioChunks.IrregularShows` | common/sdk_linux/init/initramfs.c:270-288 | With such a header, cutting just before its last byte leaves another state of the automaton |
| `CpioFeed.IrregularTells` | common/sdk_linux/init/initramfs.c:192-463 | And that is seen from outside: some continuation of the stream makes the unpacker give up with a message without the cut, and does not with it |
| `CpioFeed.NamelessShows` | common/sdk_linux/init/initramfs.c:270-288 | A concrete one: the magic followed by zero digits, an entry without a name |
| `CpioFeed.FeedBody` | common/sdk_linux/init/initramfs.c:386-410 | Writes of one body join into one, however it is cut |
| `Initramfs.Unpacker.Eat` | common/sdk_linux/init/initramfs.c:208-213 | The three counters move together |
| `Initramfs.Unpacker.ReadInto` | common/sdk_linux/init/initramfs.c:219-231 | Straight from the buffer if all of it is there, else over to Collect |
| `Initramfs.Unpacker.DoStart` | common/sdk_linux/init/initramfs.c:235-239 | Where the rest of the buffer leads does not change |
| `Initramfs.Unpacker.DoCollect` | common/sdk_linux/init/initramfs.c:241-255 | The same; it stops only with the buffer empty |
| `Initramfs.Unpacker.DoHeader` | common/sdk_linux/init/initramfs.c:257-288 | The same; it stops only with an error |
| `Initramfs.Unpacker.ParseHeader` | common/sdk_linux/init/initramfs.c:166-188 | The twelve fields of eight hexadecimal digits by their places (see HeaderRoundTrip), and where the next header is |
| `CpioHeader.ParseReads` | common/sdk_linux/init/initramfs.c:166-188 | Any header with the magic 070701 and, in digits of either case, inode at byte 6, mode at 14, uid at 22, gid at 30, nlink at 38, mtime at 46, length at 54, device at 62 and 70, special device at 78 and 86, length of the name at 94 is parsed as these numbers |
| `CpioHeader.HeaderRoundTrip` | common/sdk_linux/init/initramfs.c:166-188 | So what an encoder puts in these places is read back, for all fields below 2^32 and modes below 2^16 |
| `CpioArchive.ArchiveUnpacks` | common/sdk_linux/init/initramfs.c:192-427 | The bytes of any list of well-formed entries do to the file system what the entries say, one after the other: directories, nodes and links with their owner and time; files opened (truncated under their first name, not under a further one, which is a hard link to the first since the last trailer), with owner, size, contents and time; nothing for a trailer. Afterwards the unpacker stands between two entries without an error |
| `CpioArchive.ArchiveInPieces` | common/sdk_linux/init/initramfs.c:192-463 | The same however the archive is cut into buffers |
| `CpioArchive.PassedOver` | common/sdk_linux/init/initramfs.c:270-300 | An irregular entry is passed over, with its name, body and padding, and has no effect, unless a cut fell into its header |
| `CpioArchive.WrongMagic` | common/sdk_linux/init/initramfs.c:257-269 | The magic of the old format, or another one, ends it with the message for that, and no effect |
| `CpioArchive.WrongByte` | common/sdk_linux/init/initramfs.c:302-311 | Between entries zeros are passed over; another byte is broken padding inside a word, junk or the start of a header at a whole one |
| `Initramfs.Unpacker.DoSkip` | common/sdk_linux/init/initramfs.c:290-300 | Where the rest of the buffer leads does not change, also with a stale next_state |
| `Initramfs.Unpacker.DoReset` | common/sdk_linux/init/initramfs.c:302-311 | Padding is eaten and a stop that is not at an archive's end is an error |
| `Initramfs.Unpacker.DoName` | common/sdk_linux/init/initramfs.c:341-384 | The effects of the name of an entry, by its kind |
| `Initramfs.Unpacker.DoCopy` | common/sdk_linux/init/initramfs.c:386-410 | The body is written as far as it is there, and the file closed after the last byte |
| `Initramfs.Unpacker.DoSymlink` | common/sdk_linux/init/initramfs.c:412-422 | The link is made with its whole target |
| `Initramfs.Unpacker.FindLink` | common/sdk_linux/init/initramfs.c:69-99 | The chained table answers with the name first stored for device, inode and kind, and stores the name otherwise |
| `Initramfs.Unpacker.FreeHash` | common/sdk_linux/init/initramfs.c:101-111 | The table is empty afterwards |
| `Initramfs.Unpacker.LinkExisting` | common/sdk_linux/init/initramfs.c:326-336 | 1 with a hard link made, -1 if that failed, 0 for the first name |
| `Initramfs.Unpacker.Act` | common/sdk_linux/init/initramfs.c:424-427 | Each entry of the table keeps where the buffer leads, and eats bytes or comes closer to an entry that does |
| `Initramfs.Unpacker.WriteBuffer` | common/sdk_linux/init/initramfs.c:429-438 | The loop over the table ends, and finishing the rest of the buffer would give what the byte automaton gives for the whole |
| `Initramfs.Unpacker.FlushBuffer` | common/sdk_linux/init/initramfs.c:440-463 | The resumable machine does to a buffer what the byte automaton does; -1 exactly if there was an error before, and otherwise all of it is used up |
| `Cpuhp.CpuState.InvokeCallback` | common/sdk_linux/kernel/cpu.c:154-245 | One step in one direction: single callback, one instance, all instances from where an earlier call stopped, or all instances with rollback inside |
| `CpuhpAnswers.InvokeOnce` | common/sdk_linux/kernel/cpu.c:154-196 | An injected failure is used up and answers EAGAIN (-11) or, without the callback, 0, and nothing is called; a plain step, or the instance that is given, takes exactly the one call in the direction asked for, whose answer is returned |
| `CpuhpAnswers.InvokeInstances` | common/sdk_linux/kernel/cpu.c:198-222 | With lastp the instances in front of the one remembered are called in order up to the first that fails, which is remembered in its stead |
| `CpuhpAnswers.InvokeUndoesInstances` | common/sdk_linux/kernel/cpu.c:198-245 | Without it those in front of the first that fails are called the other way, in order, if there is such a callback, and the answer is that of the last call made |
| `Cpuhp.CpuState.CpuhpSetState` | common/sdk_linux/kernel/cpu.c:480-492 | The new target and direction, everything left over cleared |
| `Cpuhp.CpuState.CpuhpResetState` | common/sdk_linux/kernel/cpu.c:494-512 | The way back, from the failed step itself if one of its instances is to be resumed |
| `Cpuhp.CpuState.CpuhpThreadFun` | common/sdk_linux/kernel/cpu.c:698-770 | One run of the hotplug thread |
| `CpuhpAnswers.ThreadStep` | common/sdk_linux/kernel/cpu.c:698-770 | On the way up the step behind the state is run, on the way down the one of the state itself, and the state moves by one; a single callback moves nothing; the thread goes on while there is no error and the target is not reached |
| `Cpuhp.CpuState.KickThread` | common/sdk_linux/kernel/cpu.c:515-530 | The thread runs until it has nothing to do, and that ends |
| `Cpuhp.CpuState.CpuhpKickAp` | common/sdk_linux/kernel/cpu.c:532-545 | Forward and, after a failure, back again; the error is returned |
| `Cpuhp.CpuState.CpuhpUndoUp` | common/sdk_linux/kernel/cpu.c:625-630 | Teardown down to the target |
| `Cpuhp.CpuState.CpuhpUpCallbacks` | common/sdk_linux/kernel/cpu.c:647-664 | Startup up to the target, or undone from the failed step |
| `CpuhpWalk.KickMeaning` | common/sdk_linux/kernel/cpu.c:480-545 | A transition to another state passes every step of the way, and every call of it returned 0; or a step fails, and then the calls that count as successful are those that returned 0, at most one more was made and its error is what is returned (none only for an injected failure of that step), exactly the successful ones are taken back, and the state is the one from before |
| `CpuhpAnswers.StepCallsAre` | common/sdk_linux/kernel/cpu.c:154-222 | The calls of a whole step: none without the callback, one for a plain step, one for each instance in the order of the list |
| `CpuhpAnswers.PassedAre` | common/sdk_linux/kernel/cpu.c:480-545 | The steps of the way are those from the state up, or from it down, one by one, and the way back takes them in the opposite order and direction |
| `CpuhpWalk.TakenBackExactly` | common/sdk_linux/kernel/cpu.c:154-222 | With callbacks in pairs, of every callback of every instance as many calls are taken back as succeeded |
| `CpuhpWalk.KickExactly` | common/sdk_linux/kernel/cpu.c:480-545 | The same for the log of a whole failed transition: behind the calls that returned 0 and the one whose error is returned stand the reversals of the former, each once |
| `CpuhpBoot.UpAllOrNothing` | common/sdk_linux/kernel/cpu.c:625-664 | The boot processor's side over single-instance steps: all passed, every call having returned 0; or those passed, whose calls returned 0, are taken back unless rollback is not configured, and the error returned is that of the one more call made, or of an injected failure |
| `CpuhpBoot.ErrorIsLostIff` | common/sdk_linux/kernel/cpu.c:198-245 | The rollback inside cpuhp_invoke_callback() turns a failure into success exactly if there is a callback the other way and an instance had succeeded |
| `CpuhpBoot.ErrorIsLost` | common/sdk_linux/kernel/cpu.c:198-245 | A step with two instances, the second of which fails to start, is reported as started |
| `CpuhpBoot.KickToSelfIff` | common/sdk_linux/kernel/cpu.c:515-545 | A kick to the state a CPU is in does nothing exactly if the result left by the transition before is 0; otherwise the CPU ends up two states further |
| `CpuhpBoot.FailureThenSelf` | common/sdk_linux/kernel/cpu.c:515-545 | And that happens: a first step that fails at once, up or down, leaves the state as it was and a result that is not 0, so that a kick to that state ends two states further |
| `IpcIds.IdTable.IpcIdrAlloc` | common/sdk_linux/ipc/util.c:201-259 | The next free index in cyclic order inside the window, the sequence number bumped on wrap-around; ENOMEM and ENOSPC leave the table alone |
| `IpcIds.IdTable.IpcAddid` | common/sdk_linux/ipc/util.c:276-327 | The object with its index and key entered, or nothing at all changed but the position of the search |
| `IpcAnswers.AddIdAnswers` | common/sdk_linux/ipc/util.c:201-327 | -28 at the limit, -12 without memory, -17 for a key that a live object has; otherwise a new object at the first free index from the last one on, or from 0 if there is none behind it, within max(in_use*3/2, ipc_min_cycle) and ipc_mni, with the sequence number one further if that is not behind the last index |
| `IpcIds.IdTable.IpcKhtRemove` | common/sdk_linux/ipc/util.c:449-454 | The key goes, if it has one |
| `IpcIds.IdTable.IpcRmid` | common/sdk_linux/ipc/util.c:464-482 | The object goes from both tables, and the downward search finds the new largest index |
| `IpcAnswers.RmidAnswers` | common/sdk_linux/ipc/util.c:449-482 | The object is gone and its key finds nothing; the others are found as before, and the largest index is right |
| `IpcIds.IdTable.IpcSetKeyPrivate` | common/sdk_linux/ipc/util.c:492-496 | The object can no longer be found by its key |
| `IpcAnswers.SetKeyPrivateAnswers` | common/sdk_linux/ipc/util.c:449-496 | Its key finds nothing, the object stays with its id, and all other keys find what they found |
| `IpcIds.IdTable.Ipcget` | common/sdk_linux/ipc/util.c:396-439 | A new private object, or the one with the key, or a new one under it; ENOENT, EEXIST and failed checks |
| `IpcAnswers.GetAnswers` | common/sdk_linux/ipc/util.c:341-439 | If a live object has the key: -17 for IPC_CREAT with IPC_EXCL, else what the checks answer, else that object, and nothing changes. If none has it: -2 without IPC_CREAT, otherwise a new object. IPC_PRIVATE always makes one |
| `IpcIds.IdTable.FindIpc` | common/sdk_linux/ipc/util.c:759-788 | The first object at or behind the position, and the position behind it |
| `IpcIds.IdTable.List` | common/sdk_linux/ipc/util.c:759-788 | A whole listing has every live object once, by index |
| `IpcRuns.ListingIsComplete` | common/sdk_linux/ipc/util.c:759-788 | The same from any position on |
| `IpcRuns.FreeIndex` | common/sdk_linux/ipc/util.c:222-229 | Below the limit there is a free index in the window of max(in_use*3/2, ipc_min_cycle) capped at ipc_mni |
| `IpcRuns.AddIdFailsIff` | common/sdk_linux/ipc/util.c:276-327 | Adding fails exactly at the limit, for want of memory, or because the key is taken |
| `IpcRuns.TablesAgree` | common/sdk_linux/ipc/util.c:276-496 | After every run: in_use counts the live objects, max_idx is the largest live index or -1, the key table has exactly the non-private keys, one to one |
| `IpcRuns.PlaceKeepsHistory` | common/sdk_linux/ipc/util.c:201-259 | Every allocation moves the pair of bumps and last index on, lexicographically |
| `IpcRuns.SameIndexDifferentBumps` | common/sdk_linux/ipc/util.c:201-259 | Two objects that ever had one index have the same id exactly if the counter went round a whole number of times between them |
| `IpcRuns.StaleIdIff` | common/sdk_linux/ipc/util.c:621-634 | The id of an earlier object is accepted exactly if the object now at its index came a whole number of rounds later (or is that object) |
| `IpcRuns.StaleIdAccepted` | common/sdk_linux/ipc/util.c:621-634 | A run with two sequence numbers after which the id of the first object is accepted for the third |
| `IpcAnswers.ObtainIff` | common/sdk_linux/ipc/util.c:621-634 | An id is accepted for an object exactly if the object is live and has that id |
| `Shm.Namespace.Newseg` | common/sdk_linux/ipc/shm.c:691-809 | The size checks in order, then the segment with no user, its pages counted, on the list of its creator |
| `ShmAnswers.NewSegAnswers` | common/sdk_linux/ipc/shm.c:691-809 | EINVAL for a size outside 1..shmmax, ENOSPC if rounding up or the total wraps around or passes shmall, ENOMEM; otherwise the new segment with (size + 4095) / 4096 pages |
| `Shm.Namespace.ShmOpen` | common/sdk_linux/ipc/shm.c:271-293 | One user more, unless the segment is gone or another one has its index |
| `ShmAnswers.OpenAnswers` | common/sdk_linux/ipc/shm.c:271-293 | EIDRM without a segment at the place, EINVAL with another one there, and nothing changes; otherwise one user more and nothing else |
| `Shm.Namespace.ShmClose` | common/sdk_linux/ipc/shm.c:358-386 | One user less, and the segment goes if it was the last and it is marked or orphaned under the sysctl |
| `ShmAnswers.CloseAnswers` | common/sdk_linux/ipc/shm.c:345-386 | The last user of a marked segment, or of any with the sysctl set, takes it along; otherwise there is one user less and nothing else changes |
| `Shm.Namespace.ShmatBegins` | common/sdk_linux/ipc/shm.c:1611-1632 | An attach holds a count while it maps |
| `Shm.Namespace.ShmatEnds` | common/sdk_linux/ipc/shm.c:1692-1701 | And gives it back, with the same test as a close |
| `ShmAnswers.AttachAnswers` | common/sdk_linux/ipc/shm.c:1611-1632 | EIDRM for a segment that is not live; otherwise one user more, under way |
| `ShmAnswers.EndAttachAnswers` | common/sdk_linux/ipc/shm.c:1692-1701 | As for a close |
| `Shm.Namespace.DoShmRmid` | common/sdk_linux/ipc/shm.c:112-127 | A segment in use is marked and loses its key; an unused one goes (see RmidMarksOrDestroys) |
| `ShmAnswers.RmidMarksOrDestroys` | common/sdk_linux/ipc/shm.c:112-127 | With users: the segment is there with the same users, size and file, marked, without a key, and nothing else has changed; without: it is gone, and all others are as they were |
| `ShmAnswers.RemovedGoesWithUsers` | common/sdk_linux/ipc/shm.c:112-386 | Over every run: a segment on which IPC_RMID was called has been destroyed, or it has users, is marked and has no key |
| `ShmAnswers.LastUserDestroys` | common/sdk_linux/ipc/shm.c:345-386 | And the close or the end of the attach of its last user destroys it |
| `Shm.Namespace.ShmDestroy` | common/sdk_linux/ipc/shm.c:315-333 | The segment goes, its pages are taken off the total |
| `Shm.Namespace.ExitShm` | common/sdk_linux/ipc/shm.c:422-515 | Every segment of the creator leaves the list; with shm_rmid_forced the unused ones go |
| `ShmAnswers.ExitAllAnswers` | common/sdk_linux/ipc/shm.c:422-515 | Nothing is listed under the task any more; with shm_rmid_forced its unused segments are gone, no other segment is, and those left are as they were |
| `ShmAnswers.UnlinkAnswers` | common/sdk_linux/ipc/shm.c:422-480 | A segment leaves the list, and with shm_rmid_forced is looked at again once the locks are held; nothing else changes |
| `ShmAnswers.FinishExitAnswers` | common/sdk_linux/ipc/shm.c:480-515 | A segment taken off the list is destroyed after the locks are held exactly if it is still that one, unused, and marked or the sysctl set |
| `Shm.Namespace.DestroyOrphaned` | common/sdk_linux/ipc/shm.c:389-419 | Every unused segment without creator goes |
| `ShmAnswers.OrphansAnswers` | common/sdk_linux/ipc/shm.c:389-419 | The scan takes exactly the segments without creator and user that are marked, or all those with the sysctl set |
| `ShmRuns.PagesIff` | common/sdk_linux/ipc/shm.c:698-713 | The check on the number of pages refuses exactly the sizes for which rounding up wraps around |
| `ShmRuns.CloseKeeps` | common/sdk_linux/ipc/shm.c:358-386 | A mapped area has a live segment, and closing it keeps counts, marks and total right |
| `ShmRuns.LifetimeIsUse` | common/sdk_linux/ipc/shm.c:271-386 | After every run shm_nattch is mapped areas plus attaches under way, whatever has a user is live, no marked segment stays without users, and none is destroyed twice |
| `ShmRuns.TotalIsSum` | common/sdk_linux/ipc/shm.c:315-333 | shm_tot is the sum of the page-rounded sizes of the live segments |
| `ShmRuns.DestroyedUnused` | common/sdk_linux/ipc/shm.c:315-350 | Whatever step takes a segment away, it had no user left |
| `ShmRuns.NoOrphansLeft` | common/sdk_linux/ipc/shm.c:389-419 | After the scan with the sysctl set, every segment has a user or a creator |
| `ShmRuns.StepKeeps` | common/sdk_linux/ipc/shm.c:112-515 | Every operation keeps the invariant behind these results |
| `ShaBlock.TurnIsRound` | common/sdk_linux/scripts/resource_tool.c:60-213 | One use of the macro P on registers that change places is, in the low 32 bits of each lane, one round of FIPS 180-4 (section 6.1.2) |
| `ShaBlock.CircleStep` | common/sdk_linux/scripts/resource_tool.c:60-213 | The circular schedule of 16 words (section 6.1.3) has the word of the 80-word schedule at each step |
| `ShaBlock.Sha1Process` | common/sdk_linux/scripts/resource_tool.c:60-213 | Lanes of 64 bits agree modulo 2^32 with the compression function of section 6.1.2 |
| `ShaBlock.Turn256IsRound` | common/sdk_linux/scripts/resource_tool.c:325-454 | The same for SHA-256, whose Ch and Maj are written in another form |
| `ShaBlock.Schedule256` | common/sdk_linux/scripts/resource_tool.c:325-454 | The schedule of section 6.2.2 |
| `ShaBlock.Sha256Process` | common/sdk_linux/scripts/resource_tool.c:325-454 | The compression function of section 6.2.2 |
| `ShaStream.CountAdds` | common/sdk_linux/scripts/resource_tool.c:222-258 | The two-word counter with its carry counts bytes modulo 2^61 |
| `ShaStream.CounterIsLength` | common/sdk_linux/scripts/resource_tool.c:267-290 | The two words made of it are the length in bits of section 5.1.1 |
| `ShaStream.AbsorbBlock` | common/sdk_linux/scripts/resource_tool.c:222-258 | Completing a block and compressing it advances the state of the whole message so far |
| `Sha1.Context.Update` | common/sdk_linux/scripts/resource_tool.c:222-258 | The context stands for the bytes before and the input behind them |
| `Sha1.Context.Finish` | common/sdk_linux/scripts/resource_tool.c:267-290 | The SHA-1 digest of everything that was fed in |
| `Sha1.Csum` | common/sdk_linux/scripts/resource_tool.c:295-302 | The digest of one input |
| `Sha1.HashPieces` | common/sdk_linux/scripts/resource_tool.c:222-290 | However a message is cut into updates, the digest is that of the whole |
| `ShaVectors.Sha1OfAbc` | common/sdk_linux/scripts/resource_tool.c:60-302 | The digest of "abc" is the one of the example to FIPS 180-4 |
| `Sha256.Context.Update` | common/sdk_linux/scripts/resource_tool.c:467-502 | As for SHA-1 |
| `Sha256.Context.Finish` | common/sdk_linux/scripts/resource_tool.c:508-534 | The SHA-256 digest of everything that was fed in |
| `Sha256.Csum` | common/sdk_linux/scripts/resource_tool.c:539-546 | The digest of one input |
| `Sha256.HashPieces` | common/sdk_linux/scripts/resource_tool.c:467-534 | However a message is cut into updates, the digest is that of the whole |
| `ShaVectors.Sha256OfAbc` | common/sdk_linux/scripts/resource_tool.c:310-546 | So is the SHA-256 digest |
| `Image.ImageFile.StorageWriteLba` | common/sdk_linux/scripts/resource_tool.c:695-718 | Fails exactly if the byte place of the block or the number of bytes is negative as an int, or there is nothing to write; else the data is at its place, everything else as before, zeros in a gap |
| `Image.ImageFile.WriteData` | common/sdk_linux/scripts/resource_tool.c:743-764 | Fails exactly if one of the two places it writes at cannot be reached, or there are whole blocks whose bytes are no positive int; else writes what the low 32 bits of the size leave of the data, the last block filled up with zeros; after a failure of the second write the first one stays |
| `Image.ImageFile.WriteFile` | common/sdk_linux/scripts/resource_tool.c:1390-1438 | The size as an int and the digest, the content at its block, each for the low 32 bits of the size; negative exactly for an empty file and where writing the content fails |
| `Image.ImageFile.WriteIndexTbl` | common/sdk_linux/scripts/resource_tool.c:1457-1515 | For files of any size: succeeds exactly if no file is empty, none has whole blocks that the low 32 bits of its size lose, and every block to be written, contents and index, starts below 2 GiB; then every entry and every content is in its place and the header is left alone |
| `Image.ImageFile.Pack` | common/sdk_linux/scripts/resource_tool.c:1440-1515 | Succeeds under the same condition; then the image unpacks to the files with the paths as far as they fit and the contents as far as 32 bits of size go, which is what was packed if and only if every path fits its field and every file is shorter than 4 GiB |
| `Image.ImageFile.DumpFile` | common/sdk_linux/scripts/resource_tool.c:1241-1292 | The bytes of an entry, read block by block |
| `Image.ImageFile.UnpackImage` | common/sdk_linux/scripts/resource_tool.c:1294-1373 | The files of an image, or nothing for what is not one |
| `ImageAnswers.UnpackIff` | common/sdk_linux/scripts/resource_tool.c:1241-1373 | Unpacking any image gives these files if and only if its header is supported and announces as many, and the entry and the content of each are there |
| `ImageAnswers.ContentIs` | common/sdk_linux/scripts/resource_tool.c:1241-1292 | The content of an entry of any image: the bytes from its block on, the place in 32 bits, if they are there; none for a size of zero or of 2 GiB and more |
| `ImageSpec.NoOverlap` | common/sdk_linux/scripts/resource_tool.c:1457-1515 | Header, index blocks and contents never overlap |
| `ImageAnswers.NamedIs` | common/sdk_linux/scripts/resource_tool.c:1484-1505 | The name in the index: rk-kernel.dtb for the first device tree; otherwise without the root in front, the slash behind that, and then a leading ./ |
| `ImageAnswers.NamesAre` | common/sdk_linux/scripts/resource_tool.c:1484-1505 | For each file of the list, where first means that none before it ends in .dtb |
| `ImageSpec.EntryRoundTrip` | common/sdk_linux/scripts/resource_tool.c:1457-1515 | An index entry is read as it was written: the path as far as its field goes, the low 32 bits of block and size |
| `ImageAnswers.EntryPlaces` | common/sdk_linux/scripts/resource_tool.c:591-598 | An index entry by its bytes: ENTR, the path from byte 4 on with zeros up to 224, the digest up to 244, 20 as the host writes it at 256, block and size low byte first at 260 and 264 |
| `ImageAnswers.EntryReads` | common/sdk_linux/scripts/resource_tool.c:1294-1373 | And it is read from these places, the path up to the first zero |
| `ImageSpec.HeaderRoundTrip` | common/sdk_linux/scripts/resource_tool.c:1440-1455 | So is the header |
| `ImageAnswers.HeaderPlaces` | common/sdk_linux/scripts/resource_tool.c:579-587 | The header by its bytes: RSCE, versions zero, three ones, the number of entries low byte first at 12 |
| `ImageAnswers.HeaderReads` | common/sdk_linux/scripts/resource_tool.c:1294-1330 | An image is supported exactly if these places say so |
| `ImageSpec.RoundedSize` | common/sdk_linux/scripts/resource_tool.c:638-641 | fix_blocks() is enough for the data, and at least one block if there is any |
| `ImageAnswers.FewestBlocks` | common/sdk_linux/scripts/resource_tool.c:638-641 | And no fewer blocks would be |
| `ImageAnswers.ToIntIs` | common/sdk_linux/scripts/resource_tool.c:695-706 | A size or place as an int: the number from -2^31 up to below 2^31 that is whole rounds of 2^32 away |
| `ImageAnswers.StartIs` | common/sdk_linux/scripts/resource_tool.c:1457-1515 | The first content starts behind header and index blocks, each further one behind the whole blocks of the one before |
| `ImageSpec.Get32OfLe` | common/sdk_linux/scripts/resource_tool.c:662-673 | A number comes back from its little-endian bytes |
| `ImageSpec.WriteLeaves` | common/sdk_linux/scripts/resource_tool.c:695-718 | A write leaves every region alone that it does not overlap |
| `ImageAnswers.WrittenAt` | common/sdk_linux/scripts/resource_tool.c:695-718 | Byte by byte: a write leaves its data in its place, zeros between the old end and that, and all else as it was |
| `ImageSpec.UnpackPacked` | common/sdk_linux/scripts/resource_tool.c:1294-1373 | Header, entries and contents in place give back the files in order, each with the path and the content that the entry keeps |
| `ImageSpec.ReadBackIff` | common/sdk_linux/scripts/resource_tool.c:591-598 | What is given back is what was packed if and only if every path fits, without a zero byte, and every file is shorter than 4 GiB |
| `ImageSpec.ReadPathIff` | common/sdk_linux/scripts/resource_tool.c:1457-1515 | A path comes back from its field exactly if it is shorter than the field and has no zero byte |
| `ImageSpec.ReachesIff` | common/sdk_linux/scripts/resource_tool.c:743-764 | With all its ints wrapped around, write_data() gets through exactly if the whole blocks are not lost and, in 32 bits, every block starts below 2 GiB |
| `ImageSpec.StorableWhenShort` | common/sdk_linux/scripts/resource_tool.c:1457-1515 | For files shorter than 4 GiB: a file can be stored exactly if it is not empty, is shorter than 2 GiB and its blocks start below 2 GiB |
| `ImageSpec.WrappedSize` | common/sdk_linux/scripts/resource_tool.c:1390-1438 | A file of 4 GiB and 512 bytes meets the condition for success, and 512 bytes of it are given back |

## Left out

Semaphores
- Weak memory: accesses are sequentially consistent, and the barriers are not part of this model.
- RCU, reference counts, permission checks, security hooks and the races with IPC_RMID between looking up
  a set and locking it.
- `sempid`, `sem_otime`, `sem_ctime`, `q->blocking` of queued requests, and with them `count_semcnt()`:
  a queued wait for zero is looked at only when something reaches zero, so its blocking operation may be old.
- GETALL, GETVAL, IPC_STAT and the other readers: they count only as visits that take the global lock.
- Time-outs, signals and spurious wake-ups are nondeterministic: a sleeper may give up at any time.
- The wait for other lock holders in `complexmode_enter()` is in SemLock; `SemArray.Array` only has its
  effect on the counter.
- `find_alloc_undo()` is modelled for one set: the list of all sets of a process is not part of this model,
  nor is copying and sharing of undo lists in `copy_semundo()`. An exiting owner has no request of its own
  asleep, which is what the reference count of the list is for.
- The mask in `semop()` is kept as the set of its bits. SEMVMX, SEMAEM and the error numbers come from
  headers that are not part of this model, and BITS_PER_LONG is taken as 64.
- SemSystem.SystemIsSerial: what an operation does to the set takes effect in one step: under the global lock
  when it leaves its section, under the lock of a semaphore when it gives that up. An operation enters its
  section with what it needs there (semaphores of the set, its undo structure, its sleeper); a sleeper on one
  semaphore that gives up while the counter is zero is not among the threads' operations.
- SemOverlap.OverlapIsSerial: the counter is zero throughout; SemSystem has the general case.
- SemHistory.NoLostWakeUp: speaks of unlocked states, because while somebody holds the lock requests that
  have just become possible are still queued; for complex waits for zero it speaks of success only, because
  of StaleSleeper.

Message queues
- Copying to and from user space, and with it the cut of a message with MSG_NOERROR (that it is received is
  modelled), times and pids.
- The entry of a sleeping sender carries its message, which in the source waits on the sender's stack.
- `MsgQueue.MessageQueue.SsWakeup` is written as one loop for each value of kill.
- Permission checks, the CAP_SYS_RESOURCE test of IPC_SET and the conversion of its limit from user space.

Unpacker
- Decompression and the loop of `unpack_to_rootfs()` around it, and the release of initrd memory.
- The file system answers by any function of the effects so far; a failing write is not part of this model.
- Buffers are sequences: overlapping use of header_buf, symlink_buf and name_buf is not, so a `collected`
  that still points to an older buffer stands for its bytes. A name without terminating NUL is cut at the
  end of its field.
- `simple_strtoul()` is not in the repository; fields are read as hexadecimal up to the first other digit.
- CpioArchive.ArchiveUnpacks: an entry is well-formed if its lengths are those of its name and body, both padded
  to whole words (by any bytes) and within PATH_MAX where the source limits them, and only files and links have a
  body; other entries and other bytes are in PassedOver, WrongMagic and WrongByte.
- Offsets are unbounded. The order in which `dir_utime()` sets times is left out.

CPU hotplug
- `undo_cpu_down()`, the masks, sysfs, SMT control, lockdep and the architecture's bring-up code.
- WARN_ON conditions: only what the code does after them.
- CpuhpBoot.UpAllOrNothing: single-instance steps only, because inside a multi-instance step the error may
  be lost, which ErrorIsLostIff states.
- CpuhpWalk.KickMeaning: callbacks of the way back do not fail, and an instance is in one list once, as the
  code demands of its callers.

Identifiers
- CONFIG_CHECKPOINT_RESTORE, which sets sequence numbers by hand.
- idr and rhashtable are maps that may run out of memory. ipc_mni, ipc_min_cycle, the sequence limit and
  the span of an index are parameters, as their definitions are not part of the repository.

Shared memory
- Huge pages, mlock, `shm_get_stat()`, the search for areas in `shmdt()`, and the sysctl handler
  (ipc_sysctl.c is not part of the repository).
- The index of a new segment is a parameter; how it is found is in IpcIds.
- A namespace that goes away while `exit_shm()` runs.
- `shm_lock()` without a check of its result, in closing, is kept: CloseKeeps and EndAttachKeeps show that
  the segment is there.

Hashes and images
- The lanes of SHA-1 are 64 bits wide, those of SHA-256 32. The unrolled rounds are a loop over the number
  of the register that is called A.
- One call of update takes fewer than 2^32 bytes, as its length is added to a 32-bit counter.
- The reordering in `pack_image()`, printing, the directories made when unpacking, and errors of reading
  and writing files.
- Image.ImageFile.WriteIndexTbl: an int that overflows is taken to wrap around, size_t to have 64 bits, and a
  file of any size to fit into memory. Bytes of the entry that the source leaves unset are a parameter, and so
  is the byte order of the host, in which hash_size is written.
- Image.ImageFile.UnpackImage: gives the list of files in order; that a later file of the same path
  replaces an earlier one on disk is not part of this model.
- The suffix test on names shorter than the suffix reads in front of the name in the source; here it fails.
