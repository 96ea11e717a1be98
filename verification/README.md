# A verified model of mntrs

mntrs mounts object storage as a file system. This Dafny project models its state machines and the
algorithms around them, and proves what they promise:

- the write-behind **deleter**: N pump tasks over a shared queue, with ledgers, retries, tombstones,
  cancellation, shutdown and an epoch barrier (`DeletePump`, `DeleteLaws`, `DeleteRetries`, `DeleteTombs`,
  `DeleteBarrier`, `DeleteExact`, `DeleteCancel`, `DeleteBackend`, `DeleteShutdown`);
- the **prefetcher**: a download thread, readers and an owner around a bounded part queue and a memory
  budget, with the rate controller and the limiter (`PartQueue`, `Prefetcher`, `PrefetcherFile`,
  `Backpressure`, `MemLimiter`);
- the **writeback worker**: bounded retry cycles, one task per path, and the re-upload rule of off mode
  (`Writeback`, `WritebackOff`);
- the **two-level block cache**: an in-memory cache by inode over block files by path hash, with late writes
  from the disk write pool (`MemCache`, `DiskCache`, `MultiLevelCache`, `PathGen`, and `CacheRuns` for calls
  split into their steps), and the **block file format** with a concrete CRC32C (`Crc32c`,
  `BlockFormat`);
- two **algorithms** with a simple specification: glob matching (`Glob`) and civil dates (`Calendar`).

Concurrent parts are transition systems: a state, actions that are one lock region or one atomic operation
each, and theorems about every state reachable by any sequence of actions. Sequential code that updates
things in place is a class or a method with loops. `dafny verify dfyconfig.toml` checks everything. Nothing
was executed: all statements are about the model.

## Where the code does less than its comments or documentation say

The model follows the code. Each of these is a theorem below.

- A `flush` that returns Ok has waited for the jobs some pump had taken, not for all that were pending. The
  comment in `delete_backend_strict` (src/lib.rs:2048-2054) claims more: `BarrierExact` gives the exact
  condition and `StrictDeleteUnanswered` a strict delete that returns Ok with its own job unanswered.
- `unlink` inserts the tombstone after the push, so a fast pump can leave a tombstone no job will ever remove
  (`LateTombstone`, `TombsGuardedExactly`, `StrayTombstoneStays`).
- `cancel_pending` misses a job in a pump's hand, and removes a ledger entry but not the key in opendal's
  buffer; `CancelProtectsExactly` says when a re-created object is safe (`CancelLeavesKey`,
  `FinishedCancelLeaves`).
- A stuck upload has had 55 attempts, five in each of the cycles 0 to 10; src/writeback.rs:135 says 50
  (`GivenUpAtFiftyFive`, `AllAttempts`).
- The pending counter of the writeback worker counts uploads in the worker plus every retry cycle ever started
  (`PendingCountLaw`); a path whose cache file vanished stays claimed until something else drops the claim
  (`OrphanedUntilDisowned`); and dropping the claim of a path in flight lets it have two uploads
  (`OneTaskExactly`, `SecondTask`).
- The success check of an upload compares, drops the buffer and drops the claim in three steps, and a flush
  copies the buffer and claims the path in two. A write and flush in between can be lost
  (`SplitCheckLosesUpdate`, `SplitFlushLosesUpdate`); `FlushLosesExactly` says which flushes. So can a flush
  after the claim of a path in flight was dropped (`DisownLosesExactly`).
- Clearing a full generation table can make a stale queued write current again (`FullTableRevivesJob`); the
  comment at src/disk_write_pool.rs:240-244 says such jobs always skip.
- A queued block write whose index entry is evicted before it is performed, or not yet made when the path is
  invalidated, leaves a block file that invalidation does not find (`OrphanServesStale`,
  `LateIndexServesStale`, `OrphanedExactly`).
- A read between its disk hit and its backfill of memory, and a pool worker between its generation check and its
  file, bring an invalidated block back (`BackfillServesStale`, `CheckedWriteServesStale`);
  `InvalidationSafeExactly` and `LastStepSafeExactly` say when an invalidation does its work.
- A damaged magic sends a short block file to the reader of headerless files (`ByteChangeRejectedExactly`).
- The limiter's sums can leave 64 bits: `used` saturates at a cap of 2^64 - 1 (`SaturatedReservation`), and a
  label's count wraps at smaller caps while releases are between their halves (`WrappedLabel`);
  `LabelsExactly` gives the exact condition.
- A prefetcher dropped during a read releases that reservation twice (`DropBalancesExactly`); a minimum window
  of zero need not make progress (`TerminatesExactly`); a clamp with crossed bounds kills the thread
  (`AbortsExactly`, `ShortFileAborts`).
- `epoch_to_ymdhms` is documented for 1970 to 2100 and is right far beyond (`StampsAgree`).

## Model

| member | source | states |
|---|---|---|
| DeleteLaws.DeleteConservation | src/concurrent_delete.rs:381-463 | in every run each accepted job is in exactly one of pending queue, pump (hand, ledger, closing batch) or shutdown and unanswered, or nowhere and answered exactly once; no other id appears |
| DeleteLaws.SlotConserves | src/concurrent_delete.rs:564-653 | every step of a pump keeps the number of places plus answers of every job |
| DeleteLaws.ScanConserves | src/concurrent_delete.rs:420-463 | so does every lock region of a cancel |
| DeleteLaws.FailConserves | src/concurrent_delete.rs:773-829 | so does every region of a shutdown |
| DeleteLaws.CountersCount | src/concurrent_delete.rs:669-760 | KEYS_TOTAL is the Ok answers plus those still owed to closed batches, FAILURES_TOTAL the failed answers (and owed ones) plus single delete errors, SHUTDOWN_LOST_TOTAL plus what running shutdowns have yet to add is the BrokenPipe answers |
| DeleteLaws.FirstInFirstOut | src/concurrent_delete.rs:572-605 | in every run a pump takes the job accepted first among those pending and leaves the others |
| DeleteRetries.RetriedExactly | src/concurrent_delete.rs:721-745 | in every run a failed close of a batch with a given job gives the job up if and only if it is number max_retries + 1 of such failures since the pump came to its ledger, counted in the run; every earlier one puts the job back into the ledger with no answer, tombstone or counter touched |
| DeleteRetries.FailedExactly | src/concurrent_delete.rs:669-760 | in every run the answer a pump gives is Failed if and only if exactly max_retries + 1 closes of batches with that job have failed since then, and else Ok |
| DeleteBackend.DeletedMeansGone | src/concurrent_delete.rs:564-720 | in every run, from the push of a delete on and as long as its path is not created again, an Ok answer to it means the object is gone |
| DeleteBackend.AnsweredMeansSafe | src/concurrent_delete.rs:564-720 | in every run without a cancel of the path, a shutdown or a batch given up: once no delete of the path is on its way, an object created there is safe |
| DeleteShutdown.ShutdownAnswers | src/concurrent_delete.rs:773-829 | in every run a shutdown empties the pending queue and then its slot's ledger, and once it has passed the slot each job it took there is answered exactly once, as lost |
| DeleteShutdown.NothingNewAfterShutdown | src/concurrent_delete.rs:381-388 | once a shutdown has begun no delete is admitted in any continuation; the only new jobs are those of calls that had seen the deleter accepting |
| DeleteTombs.OneTombstonePerUnlink | src/lib.rs:7584-7598 | in every run the separate tombstone inserts of a path made and still to come are its pushed unlinks |
| DeleteTombs.TombstoneMeansUnanswered | src/concurrent_delete.rs:669-760 | in every run in which unlink inserts the tombstone with the push, or each separate insert is timely, a tombstone has an accepted, unanswered job of its path, or a cancel of the path is running |
| DeleteTombs.TombsGuardedExactly | src/lib.rs:7584-7598 | over any run of the code, with the insert as the separate step it is: every tombstone has a job that will still remove it, or a running cancel, in every state, if and only if each insert happens while its path has one (an unanswered job whose tombstone step is already past does not count) |
| DeleteTombs.StrayTombstoneStays | src/lib.rs:7584-7598 | an insert that comes too late leaves its tombstone in every continuation that neither cancels the path nor pushes another job of it |
| DeleteTombs.LateTombstone | src/lib.rs:7584-7598 | for any number of pumps there is a run that ends with a tombstone, no job of its path and no cancel |
| DeleteBarrier.AcksMonotone | src/concurrent_delete.rs:640-645 | between any two states of any run no slot's acknowledgement falls, and none exceeds the epoch |
| DeleteBarrier.PumpStep | src/concurrent_delete.rs:572-652 | a pump learns a new epoch only by loading it, and then holds no job at all |
| DeleteBarrier.FlushBarrier | src/concurrent_delete.rs:476-509 | in every interleaving of pumps, enqueuers, cancellers, flushers and shutdowns: when flush returns Ok, a job a pump had at the epoch bump is answered (or with a running shutdown); so is one that was only pending, if no pump was between its drain and its epoch load |
| DeleteBarrier.TimedOutStays | src/concurrent_delete.rs:476-509 | a flush that times out has returned an error in every continuation, whatever is acknowledged later |
| DeleteExact.EarlyReturn | src/concurrent_delete.rs:564-652 | from any reachable state with a pump between drain and epoch load there is a run in which flush returns Ok while everything that was pending sits unanswered in that pump's ledger |
| DeleteExact.BarrierExact | src/concurrent_delete.rs:476-509 | in every reachable state: a flush started there covers all accepted jobs in all continuations if and only if nothing is pending or no pump is between its drain and its epoch load |
| DeleteExact.StrictDeleteUnanswered | src/lib.rs:2042-2069 | for any number of pumps, enqueue followed by flush can return Ok with that very job unanswered |
| DeleteCancel.CancelProtectsExactly | src/concurrent_delete.rs:414-463 | in every state: an object created there survives every continuation that does not delete its path again if and only if no delete of the path is pending, about to be pushed, or in a pump's hand before it reaches opendal, and no slot's opendal buffer holds the key; jobs in ledgers and batches do not matter |
| DeleteCancel.FinishedCancelLeaves | src/concurrent_delete.rs:414-463 | a cancel that has scanned the queue and every ledger, with no new job of the path pushed meanwhile, leaves none pending, and with the pumps only jobs that a pump had in its hand or batch when its ledger was scanned |
| DeleteCancel.BufferedKeyGoes | src/concurrent_delete.rs:594-605 | while the deleter accepts work there is a run in which a delete of some other path takes a buffered key with it |
| DeleteCancel.UnsafeGoes | src/concurrent_delete.rs:564-829 | from every state that is not safe for a path there is a run, through a pump or a shutdown, that deletes its object |
| DeleteCancel.CancelLeavesKey | src/concurrent_delete.rs:441-457 | a run in which a job is cancelled from a ledger, the cancel finishes with nothing of the path left, and a re-created object is still not safe |
| DeleteCancel.ScanQueue | src/concurrent_delete.rs:423-439 | the drain-and-refill loop keeps exactly the other paths' jobs in order, answers exactly the matching ones and counts them |
| Prefetcher.ReadersGetTheFile | src/prefetcher.rs:1013-1043 | in every producer/consumer interleaving the queue is sorted, disjoint, within max_bytes and its byte count is right; pop(o) answers exactly when a queued part covers o, with the file's bytes at that offset |
| PrefetcherFile.PopHandsOver | src/prefetcher.rs:1013-1043 | in every run, after pop(o) the reader holds the queued part that covers o, with the file's bytes, if and only if there was one, the part has left the queue, and otherwise it stays idle; other readers keep what they hold |
| PrefetcherFile.PartReturned | src/prefetcher.rs:1013-1043 | in every run a reader that holds a part still holds it when it comes to release it, and its two steps return exactly the part's bytes to the budget and then to the counter, which does not wrap |
| PrefetcherFile.EnqueuedIsFound | src/prefetcher.rs:526-646 | in every run bytes read and queued are handed to any reader that pops at an offset they cover, until a pop at or past their start |
| PrefetcherFile.QueuesTheFile | src/prefetcher.rs:733-975 | in every run without a twice refused reservation and with full reads the queued bytes, in order, are the file up to the thread's offset; a thread that finished without cancel or error has queued the whole file |
| PrefetcherFile.DownloadsAll | src/prefetcher.rs:733-975 | with a positive minimum window and a queue that takes it, every file has such a run to the end |
| PrefetcherFile.FinishedAtTheEnd | src/prefetcher.rs:733-975 | in every run the thread finishes only at the end of the file, when cancelled, or with an error |
| PrefetcherFile.GivesUpAtTheSixth | src/prefetcher.rs:836-885 | in every run a transient error ends the thread, with an error, if and only if it is the sixth in the run since a part was last queued; before that the offset stays and it tries again |
| PrefetcherFile.RetriesHalf | src/prefetcher.rs:866-885 | in every run the request after a tolerated transient error is at the same offset for half the size, but not less than the minimum window, whatever the rate controller answers meanwhile |
| PrefetcherFile.RequestsTheWindow | src/prefetcher.rs:757-768 | in every run the thread asks for the rate controller's window (at the start of the file the configured chunk within its bounds), at most the floor of an earlier transient error and at most the rest of the file |
| PrefetcherFile.RefusedHalves | src/prefetcher.rs:781-815 | in every run a refused request is asked for again with half its size but not less than the minimum window; refused again, exactly that much is skipped; granted, exactly that much is read |
| PrefetcherFile.CancelStops | src/prefetcher.rs:733-975 | from a cancelled state on the thread takes at most nine more steps in any continuation, whatever it was doing, and queues nothing |
| Prefetcher.DropCompletes | src/prefetcher.rs:1060-1086 | the drop releases exactly what it loaded and leaves the counter at zero, and ends at once if it loaded nothing |
| Prefetcher.WrapSubIsModular | src/prefetcher.rs:1013-1086 | the counter's subtraction is the one modulo 2^64 |
| Prefetcher.DeadBranches | src/prefetcher.rs:594-646 | in every run push is never refused for overlap, nor for room after the check under the same lock, and the overlap skip is never planned |
| Prefetcher.PushAlwaysLands | src/prefetcher.rs:594-646 | the single-state form: not terminal and room for the request implies the push succeeds |
| Prefetcher.BudgetConserved | src/prefetcher.rs:781-959 | the limiter's net equals in_flight_reserved up to steps in progress, which covers queue, hand and readers, so no subtraction wraps |
| Prefetcher.DropBalancesExactly | src/prefetcher.rs:1060-1086 | with load, release and store as separate steps: after a drop the net ends at minus what the thread had in hand when the counter was loaded, zero exactly when it had nothing |
| Prefetcher.DropWhenFinished | src/prefetcher.rs:1060-1086 | a drop whose load finds the thread finished or between requests ends with the net at zero in every continuation |
| Prefetcher.DropDuringRead | src/prefetcher.rs:1060-1086 | for every file there is a run in which a drop during a read ends with a negative net |
| Prefetcher.WindowRatchet | src/prefetcher.rs:866-885 | after a first transient error, whatever the rate controller answers, the floor never rises nor drops below the minimum, a pending retry size is the floor, and no request exceeds the floor |
| Prefetcher.DownloadTerminates | src/prefetcher.rs:733-960 | with a positive minimum window or an empty file every run takes at most 70 thread steps per byte and 69 more, not counting waits for room, the offset never passes the end, and at most six transient errors occur between successes |
| Prefetcher.TerminatesExactly | src/prefetcher.rs:733-960 | the thread's work is bounded over all runs if and only if the minimum window is positive or the file is empty |
| Prefetcher.ZeroWindowStalls | src/prefetcher.rs:733-960 | with a zero minimum window, whatever the maximum, and any non-empty file, for every k there is a run from the start with at least k thread steps: empty requests are granted, read nothing and queue empty parts at an offset that stays; only non-empty requests are ever refused |
| Prefetcher.AbortsExactly | src/prefetcher.rs:791-885 | in every reachable state the next step kills the thread on a crossed clamp if and only if it is a refused reservation or a tolerated transient error with fewer bytes left than the minimum window |
| Prefetcher.ShortFileAborts | src/prefetcher.rs:791-885 | a non-empty file shorter than the minimum window is such a case: the first refused reservation kills the thread |
| PartQueue.PopFindsExactly | src/prefetcher.rs:161-200 | on a well-formed queue pop returns the part covering the offset exactly when there is one |
| PartQueue.PopKeepsExactly | src/prefetcher.rs:161-200 | a queued part leaves the queue exactly at a pop at or past its start |
| PartQueue.PushTakesExactly | src/prefetcher.rs:126-159 | push takes the part if and only if the queue is open, has room and ends before it; an overlap reports the largest end queued; any other outcome changes nothing |
| PartQueue.PushThenPop | src/prefetcher.rs:126-200 | after a push that succeeds pop finds that very part at every offset it covers and elsewhere what it found before; any other push changes no pop |
| PartQueue.PushKeepsWellFormed | src/prefetcher.rs:126-159 | push keeps the queue sorted, disjoint, within its bound and its byte count right |
| PartQueue.PopKeepsWellFormed | src/prefetcher.rs:161-200 | so does pop, with the stale parts it drops |
| PartQueue.PartQueue.Push | src/prefetcher.rs:126-159 | the in-place push has the outcome and the new queue of its specification |
| PartQueue.PartQueue.Pop | src/prefetcher.rs:161-200 | the in-place loop drops exactly the stale parts and answers as its specification says |
| Backpressure.WindowFollowsRates | src/backpressure.rs:164-182 | the window stays in its bounds, grows exactly when the consumer is faster (except from 0 and 1 and at the maximum), shrinks exactly when the fetcher is more than twice as fast, and else stays; it grows by half, rounded down and up to the maximum, and shrinks to its half, rounded down, or to the minimum |
| Backpressure.BackpressureController.RecordPartConsumed | src/backpressure.rs:100-112 | averages the rate, recomputes the window and keeps it in bounds, at the minimum under pressure; the window does not move before a fetch rate is known |
| Backpressure.BackpressureController.RecordPartFetched | src/backpressure.rs:114-124 | the same for the fetch rate; the window does not move before a consume rate is known |
| Backpressure.BackpressureController.SetMemPressure | src/backpressure.rs:127-136 | pressure pins the window to the minimum, its end recomputes it, and leaves it while a rate is unknown |
| MemLimiter.NeverAboveCap | src/mem_limiter.rs:95-134 | with a positive cap no interleaving of any number of threads takes used above it |
| MemLimiter.CallEndsExactly | src/mem_limiter.rs:95-134 | a reservation goes on through every step of any thread until its bytes are recorded, or until it loads a count that leaves no room; then nothing has changed, and a lost swap does not end it |
| MemLimiter.FittingIsGranted | src/mem_limiter.rs:95-134 | in every run a reservation that fits at every moment of its call is never refused; without a cap none is |
| MemLimiter.EmptyRequestGranted | src/mem_limiter.rs:95-134 | in every run a reservation of no bytes is never refused at any of its steps |
| MemLimiter.UncappedTakes | src/mem_limiter.rs:95-108 | without a cap a request is taken at once, up to 2^63 - 1 |
| MemLimiter.TryReleaseExactly | src/mem_limiter.rs:166-199 | release_if_reserved gives back if and only if the label holds at least that much, first from the label and then from used, and else changes nothing |
| MemLimiter.ReleaseUndoesReserve | src/mem_limiter.rs:95-199 | a granted reservation followed by either kind of release leaves used and every label as before |
| MemLimiter.UnrecordedIsSigned | src/mem_limiter.rs:139-219 | for every 64-bit amount, what a release leaves of a label is what recording the negated signed word leaves |
| MemLimiter.LabelsAddUp | src/mem_limiter.rs:95-219 | with paired releases, 63-bit amounts and sums that fit 64 bits, the label counts are what the labels hold and add up to used whenever no call is mid-way |
| MemLimiter.LabelsAddUpWithin | src/mem_limiter.rs:95-219 | for n threads and amounts up to a bound, it is enough that cap plus n such amounts fit 64 bits |
| MemLimiter.LabelsExactly | src/mem_limiter.rs:95-219 | for honest callers (63-bit amounts, releases of what is held) the label counts and used are what is held, up to calls in progress, in every state of a run if and only if every sum made in it fits 64 bits |
| MemLimiter.AccountedExactly | src/mem_limiter.rs:95-219 | the same for one step: kept exactly when its sum fits |
| MemLimiter.SaturatedReservation | src/mem_limiter.rs:120-128 | at a cap of 2^64 - 1 three granted reservations leave the labels above used |
| MemLimiter.WrappedLabel | src/mem_limiter.rs:139-219 | at a cap of 2^63 - 1 three threads wrap a label's count while two releases are between their halves, and the quiet state ends with used at the cap and the label at zero |
| Writeback.OneTaskExactly | src/writeback.rs:831-1030 | over any run, a path is claimed exactly when it has one live task (none once its cache file vanished) in every state, if and only if forget, unlink and symlink cleanup never drop its claim while a task for it is live |
| Writeback.SecondTask | src/lib.rs:8539-8551 | otherwise the next flush gives the path a second live task |
| WritebackOff.NoLostUpdate | src/writeback.rs:820-860 | off mode, with the success check as its three steps and the flush as its two: in every run whose flushes and disowns of the path are careful, flushed content or a later write is on the backend, or one task is in flight, or the path is declared stuck. A flush is careful when the upload in flight will still upload its version or a later one; a disown (forget, unlink or symlink cleanup dropping the claim) is careful when the path has no live task |
| WritebackOff.FlushLosesExactly | src/writeback.rs:820-860 | after any careful run, a flush can never lose its bytes in a careful continuation if and only if it is careful |
| WritebackOff.DisownLosesExactly | src/lib.rs:8539-8551 | after any careful run, dropping the path's claim can never lose a flush of it in a careful continuation if and only if the path has no live task |
| WritebackOff.DisownLoses | src/lib.rs:8539-8551 | from every disown under a live task, in whatever place, a run of careful flushes that ends with one lost |
| WritebackOff.CarefulExactly | src/writeback.rs:820-860 | over any run from the start: every state is one from which no careful continuation loses an update of the path, if and only if every flush and every disown of the path in it was careful |
| WritebackOff.OneStepLosesNothing | src/writeback.rs:820-860 | taking check and enqueue as one step each, every run is careful: nothing is lost, a path is claimed exactly when it has one live task, and one that leaves by success leaves with the backend equal to its buffer |
| WritebackOff.FlushInWindowExactly | src/writeback.rs:820-860 | between the comparison and the end of the claim a flush is careful if and only if nothing was written to the path since the comparison or the last write put the uploaded bytes back |
| WritebackOff.LeavesWithCurrentBuffer | src/writeback.rs:820-860 | from a comparison that finds the buffer unchanged to the end of the claim, in any run: the path leaves with the backend equal to its buffer if and only if nothing was written to it meanwhile or the last write put the uploaded bytes back |
| WritebackOff.SplitCheckLosesUpdate | src/writeback.rs:820-860 | two runs that lose a flushed update for good: written and flushed between the comparison and the drop of the buffer, or between the drop of the buffer and the drop of the claim |
| WritebackOff.SplitFlushLosesUpdate | src/lib.rs:6391-6465 | with the snapshot and the claim as the two steps they are, a run in which an older snapshot overwrites a newer, flushed upload |
| WritebackOff.CarelessFlushLoses | src/lib.rs:6391-6465 | from every careless flush, in one step or two, a run that ends with its bytes lost |
| Writeback.GivenUpAtFiftyFive | src/writeback.rs:957-979 | in every run no task has a cycle above 10 or more than 54 failed attempts while live, and a failure ends it, freeing its path and declaring it stuck, if and only if it is the 55th |
| Writeback.AllAttempts | src/writeback.rs:649-1030 | in every interleaving in which a path's task only ever fails, its attempts are exactly its failures, at most 55, and it is given up exactly at the 55th |
| Writeback.FullBudget | src/writeback.rs:820-979 | in every run, from the step that gives a path a new task (a flush, or a success that finds the buffer moved on), the path is freed and declared stuck exactly at the 55th failure in the run that follows, and in flight before it |
| Writeback.SplitFlushIsFlush | src/lib.rs:6391-6465 | copying the buffer and claiming the path with nothing in between is the one-step flush |
| Writeback.SplitSuccessIsSuccess | src/writeback.rs:820-860 | comparing, dropping the buffer and dropping the claim with nothing in between is the one-step success |
| Writeback.AlwaysFailing | src/writeback.rs:649-1030 | such a schedule exists from every state: a live task can fail through all its remaining attempts of 55 and leave the pending set as stuck |
| Writeback.PendingCountLaw | src/writeback.rs:465-500 | in every run PENDING_COUNT counts uploads in the worker plus all re-enqueues so far, so it is the number in flight exactly while there was none |
| Writeback.OrphanedUntilDisowned | src/writeback.rs:562-583 | after the vanished-file branch the path stays claimed with no task in every state of a run if and only if forget, unlink or symlink cleanup does not drop the claim; until then no flush of it is uploaded and the backend keeps what it had |
| MemCache.DashMapMemCache.Get | src/cache.rs:461-473 | answers nothing or the latest put; without a limit exactly the plain map |
| MemCache.DashMapMemCache.MakeRoom | src/cache.rs:482-523 | the eviction loop takes the oldest entries only, each of them while the new block did not fit, until it fits, the queue is empty or the deadline passes, and not further |
| MemCache.DashMapMemCache.Put | src/cache.rs:474-577 | the block is cached and the latest; used is the cached bytes, and unless the deadline passed at most the limit or this block alone |
| MemCache.DashMapMemCache.InvalidateIno | src/cache.rs:578-614 | no block, index entry or queue entry of the inode is left and nothing else changes |
| MemCache.DashMapMemCache.Clear | src/cache.rs:615-621 | everything is empty |
| MemCache.CoherentStore | src/cache.rs:474-577 | storing keeps cached keys inside queue and reverse index and every cached block the latest put |
| MemCache.CoherentInvalidate | src/cache.rs:578-614 | so does invalidation, and the reverse index names exactly the cached blocks to remove |
| DiskCache.ServesWritten | src/cache_layer.rs:182-202 | after a block is written, its file serves that path and block with that data and no colliding path, and every other file serves what it did |
| DiskCache.InvalidationExact | src/cache_layer.rs:204-233 | after invalidation a block of the path is readable if and only if it was readable and not indexed |
| DiskCache.OrphanedExactly | src/disk_write_pool.rs:263-286 | a performed queued write leaves a readable block outside the index if and only if its key is not in the index |
| DiskCache.InvalidatedFiles | src/cache_layer.rs:204-233 | after an invalidation the path's files serve nothing put before it if and only if all its readable blocks were indexed, whatever was served before |
| DiskCache.CleanBumpOutdates | src/disk_write_pool.rs:206-238 | a bump that neither wraps nor clears puts every queued write of the path out of date |
| DiskCache.DamageKeeps | src/block_format.rs:194-226 | damage within four consecutive bytes after the magic of a block file only ever turns hits into misses |
| DiskCache.DiskBlockCache.GetBlock | src/cache_layer.rs:113-180 | exact result and new files and index for each of direct I/O, missing, expired, hit and rejected; under a sound path a hit is bytes put for this path and block since its invalidation; exactly which paths stay sound |
| DiskCache.DiskBlockCache.PutBlock | src/cache_layer.rs:182-202 | writes and indexes the block exactly when the serializer and the file system let it; every sound path stays sound |
| DiskCache.DiskBlockCache.InvalidatePath | src/cache_layer.rs:204-233 | the loop removes exactly the files and entries of the path's indexed blocks and bumps the generation; the path is sound afterwards if and only if all its readable blocks were indexed and all its queued writes are out of date, and another sound path if and only if the table is not cleared or all its queued writes carry generation zero and write known blocks put since its invalidation |
| DiskCache.DiskBlockCache.Submit | src/disk_write_pool.rs:974-991 | queues the write with the path's current generation; the block counts as put and as about to be indexed |
| DiskCache.DiskBlockCache.Index | src/lib.rs:5446-5450 | the separate index entry of a submitted block; every sound path stays sound |
| DiskCache.DiskBlockCache.Execute | src/disk_write_pool.rs:263-286 | performs the write exactly when the generation is the one it was queued with; every sound path stays sound |
| DiskCache.DiskBlockCache.DropBlock | src/lib.rs:1162-1256 | eviction, age sweep and expiry drop file and entry together; a sound path stays sound if and only if it is another path, the block is about to be indexed, or no current write for the block is queued |
| MultiLevel.MultiLevelCache.ReadBlock | src/multi_level_cache.rs:102-130 | for every hash, even a constant one, the answer is the memory block, else the block file's content, else nothing; under a sound path it is bytes put for this path and block since its last invalidation; a disk hit is in memory afterwards; and exactly which paths stay sound |
| MultiLevel.MultiLevelCache.Populate | src/multi_level_cache.rs:137-163 | every block is recorded as put, the writable ones are in their files and indexed, memory gets every block under All, a single block under SingleBlockOnly, and otherwise stays as it was; and every sound path stays sound |
| MultiLevel.MultiLevelCache.Invalidate | src/multi_level_cache.rs:165-173 | both levels forget the path and nothing else; nothing put before is served after if and only if all its readable blocks were indexed and its queued writes are out of date, so a path can become sound again; another path stays sound under the same condition as for InvalidatePath |
| MultiLevel.MultiLevelCache.SoundIsSafe | src/multi_level_cache.rs:102-173 | soundness over runs: from a sound path between calls, with every call split into its steps and run by any number of threads, no read gets old bytes of it before its next invalidation, as long as the generation table is not cleared |
| MultiLevel.FetchedFilesAt | src/multi_level_cache.rs:153-163 | each written block of a fetch is in its own file and no other file has changed |
| MultiLevel.FetchedAt | src/multi_level_cache.rs:153-163 | memory after a promoted fetch holds exactly its blocks over what it had |
| MultiLevel.OrphanServesStale | src/lib.rs:1162-1196 | queue a write and index it, sweep its index entry, perform it, invalidate the path: the old bytes are still served |
| MultiLevel.LateIndexServesStale | src/lib.rs:5446-5450 | queue and perform a write, invalidate the path, and only then index the block: the old bytes are still served |
| CacheRuns.SubmittedIsServed | src/disk_write_pool.rs:263-286 | a block queued by a read passes its check whenever its path has the generation it was queued with, and its write makes it readable under its key |
| CacheRuns.EveryCallEndsOnce | src/multi_level_cache.rs:102-173 | in every run each queued write is checked once and written at most once, each fetched block indexed once, each read looks on disk once and backfills at most once, and each invalidation takes its three steps once and in order |
| CacheRuns.PutIsAnswered | src/multi_level_cache.rs:137-163 | a block put into memory is what a read gets, and no other answer changes |
| CacheRuns.DroppedIsGone | src/lib.rs:1162-1256 | a dropped block is neither readable nor indexed, a rejected file not readable, and other files stay |
| CacheRuns.StaleExactly | src/multi_level_cache.rs:102-173 | from any state with any reads, pool writes and invalidations mid-way: no read gets bytes of the path put before its last invalidation until the next one begins, in any continuation, if and only if everything of it in memory and in readers' hands was put since, and so was every readable block file, checked write and queued write that can still pass its check, unless memory hides it for good |
| CacheRuns.InvalidationSafeExactly | src/multi_level_cache.rs:170-173 | an uninterrupted invalidation leaves nothing old to serve until the next one if and only if no reader was between disk hit and backfill, all readable blocks were indexed, no write had been checked and no queued write can pass its check afterwards (one of generation zero can, once the table is cleared) |
| CacheRuns.LastStepSafeExactly | src/cache_layer.rs:204-233 | the same for an invalidation with anything between its three steps: if and only if nothing of the path is left in any of these places at its last step |
| CacheRuns.BackfillServesStale | src/multi_level_cache.rs:115-121 | a run from the start: disk hit, invalidation, backfill, and the old block is served |
| CacheRuns.CheckedWriteServesStale | src/disk_write_pool.rs:263-286 | a run from the start: a queued write passes its check, its path is invalidated, the file is written, and the old block is served |
| PathGen.BumpMoves | src/disk_write_pool.rs:221-254 | a bump leaves a path's generation unchanged exactly when the path is another one and the table is not full, or the table is full and the generation was already what clearing makes it |
| PathGen.PerformedExactly | src/disk_write_pool.rs:263-286 | in every run a queued write is performed if and only if the path's invalidations since the last clear agree modulo 2^64 with the generation it carries |
| PathGen.GuardExact | src/disk_write_pool.rs:206-286 | while fewer paths than the cap were invalidated (or no clear since the submit), a queued write is performed if and only if its path was invalidated a multiple of 2^64 times since, so never an older one |
| PathGen.EachJobOnce | src/disk_write_pool.rs:263-286 | in every run the writes executed and those still queued are the writes queued |
| PathGen.FullTableRevivesJob | src/disk_write_pool.rs:239-254 | for every cap there is a run in which a write invalidated once is still performed |
| BlockFormat.SerializeV3Block | src/block_format.rs:516-547 | produces exactly the version 3 layout, or nothing for a path over 8192 bytes |
| BlockFormat.BlockLayout | src/block_format.rs:516-547 | header, path, payload and trailer lie where the reader cuts them |
| BlockFormat.ReadWrittenBlock | src/block_format.rs:194-501 | reading a serialized block under any path gives the data exactly when the path is its own and the data fits a cache block, else nothing with the file removed |
| BlockFormat.AcceptedExactly | src/block_format.rs:194-501 | on every file there is, the reader returns given data if and only if the file has at most 8462350 bytes and is one of five kinds holding it: version 1 as it is, version 2 compressed, version 3 compressed under the asked path, a headerless full block with its checksum, or a shorter headerless file as it is |
| BlockFormat.Length16RoundTrip | src/block_format.rs:408-425 | the two length bytes give the path length back |
| BlockFormat.ChecksumTest | src/block_format.rs:316-339 | the trailer comparison is one fixed final register value |
| BlockFormat.BurstRejected | src/block_format.rs:305-345 | any damage within four consecutive bytes after the magic is rejected under every path |
| BlockFormat.ByteChangeRejectedExactly | src/block_format.rs:194-291 | one changed byte is rejected if and only if it lies after the magic or the file exceeds a cache block; else the raw file is returned |
| Crc32c.AppendIsConcat | src/block_format.rs:150-162 | appending to a checksum is the checksum of the concatenation, for the CRC32C of section 12.1 of RFC 3720 |
| Crc32c.UpdateInjective | src/block_format.rs:150-162 | the register after any data determines the register before it |
| Crc32c.FourBytesAreOneWord | src/block_format.rs:150-162 | four bytes enter the register as one word |
| Crc32c.BurstChangesRegister | src/block_format.rs:150-162 | data differing only within four consecutive bytes always give different registers |
| Crc32c.TrailerIsResidue | src/block_format.rs:150-162 | a trailer is right if and only if body and trailer together reach one constant register |
| Crc32c.PublishedResidue | src/block_format.rs:150-162 | that constant is the published CRC32C residue |
| Glob.Fnmatch | src/util.rs:227-261 | the loop that backtracks to the last star only terminates and answers whether the name is in the pattern's language, for all patterns and names |
| Glob.MatchesIsLanguage | src/util.rs:227-261 | the recursive definition of star, question mark and literals is the language of concatenated pieces |
| Glob.NewStarSuffices | src/util.rs:242-245 | forgetting an earlier star loses no match |
| Glob.StarMustAdvance | src/util.rs:249-252 | a mismatch after a star is repaired only by the star taking one more character |
| Calendar.CivilFromDaysExact | src/error_log.rs:107-131 | the result is a valid date with that day number if and only if the year fits 32 bits |
| Calendar.CivilInvertsDayNumber | src/error_log.rs:107-131 | it inverts the day count on every date with a 32-bit year |
| Calendar.DayZero | src/error_log.rs:107-131 | day 0 is 1970-01-01 |
| Calendar.CivilFromNextDay | src/error_log.rs:107-131 | the next day number gives the next calendar day, under the leap rule of Appendix C of RFC 3339 |
| Calendar.DayNumberOfNext | src/error_log.rs:107-131 | the day count grows by one from each date to the next |
| Calendar.DayNumberInjective | src/error_log.rs:107-131 | different valid dates have different day numbers |
| Calendar.StampsAgree | src/cmd/dirty.rs:153-172 | epoch_to_ymdhms and the RFC 3339 fields agree for every second whose year fits |
| Calendar.StampRoundTrip | src/error_log.rs:83-105 | the fields of a second count back to that second |

## Left out

- Deleter: `last_flush_count` and the sum `flush` returns, the retry metric, backoff times and log lines; whether a sleeping pump is woken (a pump may wake at any time, so only safety is claimed, not that `flush` returns).
- Deleter: opendal is a set of keys per slot; an automatic flush, a failed close and a shutdown's close send any part of it, a successful close all of it. Partial per-key failures inside a successful close are not modelled.
- Deleter: `shutdown(drain = true)` is a flush followed by the same steps; its flush is any other flush of the model.
- Prefetcher: the 200 ms wait of `Drop`, sleeps and condition-variable wake-ups are free choices; the backend's range read returns a prefix of the range, a transient or a fatal error.
- Backpressure.WindowFollowsRates: rates are reals with floor, so floating-point rounding is not modelled.
- MemLimiter.LabelsAddUp: takes the sums to fit 64 bits, which LabelsExactly shows to be necessary; LabelsAddUpWithin replaces that by a bound on threads and amounts. A release of more than 2^63 wraps as in a release build.
- WritebackOff.NoLostUpdate: holds for careful runs only, because the code loses updates otherwise; the condition is exact for flushes (FlushLosesExactly), for disowns (DisownLosesExactly) and over whole runs (CarefulExactly).
- Writeback: one buffer and one handle per path, and a write together with its registration is one step; a closed channel, recovery of sidecar files at start, multipart chunking and worker shutdown. In disk mode only claims, retries, the counter and orphans are covered, not which bytes are uploaded.
- MultiLevel.MultiLevelCache.ReadBlock: each call of the class is one step and paths have distinct inodes; it promises freshness for sound paths. Soundness is an invariant that is enough for safety over runs (SoundIsSafe); the exact condition, with calls split into steps, is CacheRuns.StaleExactly.
- CacheRuns: under a limit any one block can leave memory at any time (the order of eviction is in MemCache), and the loop over a path's indexed blocks, one block file's write and one bump of the table are one step each.
- DiskCache: the cache directory starts empty, file names are pairs of hash and block number, a write succeeds as a whole or changes nothing, and access times, sizes for eviction and whole-file entries are omitted; legacy block files appear only as branches of the reader.
- BlockFormat: LZ4 is any codec with `decompress(compress(d)) == d`; paths are byte strings, so UTF-8 validity of an embedded path is not checked; file system errors other than a missing file are omitted.
- Moka and Foyer memory caches, hit and miss metrics of the multi-level cache, and lock contention inside concurrent maps.
- Glob: lower-casing for case-insensitive matching is a parameter.
- Calendar: leap seconds do not occur; reading the clock and formatting digits are omitted.
- Extended attributes, path helpers, HTTP client, CSI driver, command line, metrics and logging: input and output, or easy members.
