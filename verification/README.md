# logmoko, verified

A model of logmoko's asynchronous logging and of the fmtlog structures it is measured
against, with proofs.  `dafny verify dfyconfig.toml` checks everything.

## What is modelled

**The asynchronous handler** (`AsyncHandler`, `AsyncInvariant`).  Any number of producer
threads inside `log_impl`, the handler's consumer thread and one thread in `destroy` share a
ring of stamped slots, a `sleeping` flag, a mutex with a condition variable and a `running`
flag.  Each step is one load, store, compare-and-swap, fence or mutex operation.  Memory is
TSO: plain and release stores wait in a FIFO buffer per thread.  A sequentially consistent
execution is a run that flushes each store at once, so every for-all theorem covers both.
A mutex acquisition drains the destroyer's buffer.  On TSO the atomic add on
`nr_log_calls` drains the producer's buffer, too; since it is relaxed in the source, a weaker
machine on which it does not is modelled beside it.  Everything is proved where the fence of
`maybe_wake` or the add drains the buffer, and `AsyncWitness.StuckExactly` shows that one of
the two is needed: on TSO proper either is enough.  The weak compare-and-swap may fail for
no reason, `cond_wait` may wake up for no reason.  The file handler's consumer is modelled;
the console, socket and syslog handlers repeat the same protocol.

On that machine: refinement to a bounded queue and the exact full verdict (`RingFifo`), no
lost wake-up (`WakeUp`), shutdown (`Shutdown`), what the return of `destroy` guarantees
(`HandlerEnd`), counters (`AsyncCounting`) and runs that show what fails and why
(`AsyncWitness`).

**Machine words** (`Words`, `WordRing`).  The state machine counts positions without bound;
these modules prove that 64-bit cursors, masks and signed differences agree with it, and
prove the ring functions themselves on arrays of wrapping words.

**The file sink** (`FileSink`, `Rotation`, `EndToEnd`).  The consumer's staging buffer, the
byte counter and rotation by renaming, as a class over a directory, tied to whole lines by
its invariant; then ring and sink together.  The formatter is an arbitrary function of the
message and the time; whether a file can be reopened after a rotation is arbitrary.

**fmtlog** (`SpscQueue`, `Seqlock`, `KWayMerge`).  The variable-size queue and the clock
seqlock as state machines of single loads and stores, the heap merge of `poll` as a class.

**The registry** (`IntrusiveList`, `Registry`, `RegistryHeap`, `ConfigApply`).  Loggers,
handlers, references and counts as values; the same operations on the heap, with circular
lists, saved cursors and freed memory, changing the values in the same way; and applying a
parsed configuration, once or twice, with what it means for each handler and logger
(`ConfigMeaning`).  **Escaping** is in `JsonEscape`.

## Where code and documentation differ

- docs/concurrency-patterns.md says that enqueueing holds `handler->lock`.  The code claims
  slots by compare-and-swap (src/main/logmoko.h:130) and so does the model.
- The comment at src/main/logmoko_file_log_handler.c:81 says that everything remaining is
  drained before the consumer exits.  That is not so: the loop drains first (line 51) and
  reads `running` afterwards (line 82), and a record published and `running` cleared between
  the two is accepted, counted and never written.  `AsyncWitness.AcceptedButLost` is such a
  run; `Shutdown.ShutdownExact` and `Shutdown.ExitDeliversBelowTail` say exactly when nothing
  is lost; `Shutdown.RepeekDeliversAll` proves a loop that peeks once more.

## Model

| member | source | states |
|---|---|---|
| RingFifo.RunRefines | src/main/logmoko.h:120-176 | every run of any number of producers, the consumer and the destroyer, under TSO, is step by step a run of a FIFO queue of at most n messages: the winning CAS puts, the format takes |
| RingFifo.StepRefines | src/main/logmoko.h:124-151 | the single-step form: no step other than a winning CAS and a format changes the queue, and a put never finds it full |
| RingFifo.DeliveredIsPrefix | src/main/logmoko.h:135-148 | in every reachable state the messages delivered are a prefix of the claims, once each, untorn and in winning-CAS order; each has the level, line, file and handler name of its record and its data up to the first NUL, cut at 2047 bytes and nowhere else; tail <= head <= tail + n |
| RingFifo.SlotStableWhileRead | src/main/logmoko.h:158-176 | from a successful peek to the consume no step of any other thread changes the slot being read |
| RingFifo.FullVerdictExact | src/main/logmoko.h:124-151 | enqueue gives up if and only if its cursor is current and head - (freed slots) = n when it reads the stamp; a stale cursor never causes it |
| RingFifo.StampVerdict | src/main/logmoko.h:126-149 | what a stamp below or above the looked-up position tells, for any position up to head, however stale |
| RingFifo.RetryMeansOthersAdvanced | src/main/logmoko.h:124-151 | lock-freedom: apart from a spurious weak-CAS failure a producer goes round its loop only if another one advanced head |
| RingFifo.UndisturbedDecides | src/main/logmoko.h:124-149 | with head just loaded, by the load or by a failed CAS, a call that nobody disturbs is settled by its next look at the stamp: dropped if no slot is free, otherwise its CAS wins |
| AsyncInvariant.ReachableOk | src/main/logmoko_file_log_handler.c:24-109 | the invariant (stamps of the window [freed, freed+n), one writer per unready claim, mutex ownership, sleeping flag, wake-up duty, delivery history) holds in every reachable state |
| AsyncInvariant.StepOk | src/main/logmoko_file_log_handler.c:24-109 | each single load, store, flush, CAS, lock or condition-variable step keeps that invariant |
| AsyncInvariant.ReadsAccepted | src/main/logmoko.h:135-143 | a slot whose field, byte and NUL stores are all visible reads back as the record that was passed in, its data up to the first NUL or to 2047 bytes |
| AsyncInvariant.AcceptedExactly | src/main/logmoko.h:135-143 | what the consumer gets of a record: level, line, file, handler name, and the longest NUL-free prefix of at most 2047 bytes of the data |
| AsyncInvariant.CutExactly | src/main/logmoko.h:137-141 | in plain words: data without a NUL arrives whole if it has at most 2047 bytes and is cut to the first 2047 otherwise; with a first NUL below 2047 it arrives up to there |
| AsyncInvariant.OwnStampMeansFree | src/main/logmoko.h:124-151 | one lap ahead of an unfreed slot a producer reads a smaller stamp, never its own position |
| AsyncInvariant.ReadyIsClaimed | src/main/logmoko.h:158-164 | a peek never succeeds on a position nobody has claimed |
| AsyncInvariant.NobodyWritingMeansReady | src/main/logmoko.h:135-144 | with no producer between claim and return, every claimed and unconsumed slot is ready |
| AsyncCounting.CountersExact | src/main/logmoko_file_log_handler.c:163-178 | in every reachable state: calls past the running check = dropped + nr_log_calls + in flight, and head = nr_log_calls + claimed but uncounted |
| AsyncCounting.CountersAtRest | src/main/logmoko_file_log_handler.c:163-178 | with no producer inside log_impl, calls = dropped + nr_log_calls, and nr_log_calls - tail lies between 0 and n |
| WakeUp.ParkedOnlyWhenIdle | src/main/logmoko_file_log_handler.c:85-97 | with all producers back and no stop pending, a parked consumer has consumed every claim: no wake-up is ever lost |
| WakeUp.WakerExists | src/main/logmoko_file_log_handler.c:30-37 | whenever the peek under the lock has failed and the slot at tail is ready, the producer that claimed it has all its stores visible, has yet to count the call, pass the fence, load sleeping or signal, and will find sleeping = 1 |
| WakeUp.DutyPersists | src/main/logmoko_file_log_handler.c:30-37 | no step of any thread, spurious wake-ups and signals for later slots included, takes that duty away; each step of the producer brings the signal closer |
| WakeUp.DutyNotBlocked | src/main/logmoko_file_log_handler.c:30-37 | the duty can always proceed: its next step is enabled, or the holder of the mutex can move |
| WakeUp.WakeRun | src/main/logmoko_file_log_handler.c:85-97 | from every state with a parked consumer and a ready slot or a stop, at most six steps wake it, each continuing what some thread is already doing: no new call, no new stop, no spurious wake-up |
| WakeUp.WakeRunByDestroyer | src/main/logmoko_file_log_handler.c:180-188 | a parked consumer of a stopped handler is woken by at most three steps of the destroyer already under way and of the mutex holder |
| WakeUp.FlagExact | src/main/logmoko_file_log_handler.c:30-37 | in every reachable state of every variant sleeping is 1 exactly from the store of 1 under the lock until the store of 0 has arrived, so a busy consumer costs a producer no mutex |
| AsyncWitness.StuckExactly | src/main/logmoko_file_log_handler.c:24-37 | a state with a published record, a parked consumer and nothing enabled but a new call, a stop or a spurious wake-up is reachable if and only if neither the fence of maybe_wake nor the atomic add before it empties the store buffer; on TSO proper the add does, so there either one is enough |
| AsyncWitness.UndrainedCanGetStuck | src/main/logmoko_file_log_handler.c:163-178 | the stuck run, for every ring size and record, on a machine weaker than TSO: the fence left out and earlier stores allowed to stay buffered behind the relaxed add on nr_log_calls |
| Shutdown.QuietRunBounded | src/main/logmoko_file_log_handler.c:48-98 | stopped and with producers finished, every schedule ends within Measure steps and changes no claim |
| Shutdown.QuietRunShort | src/main/logmoko_file_log_handler.c:48-98 | that bound in numbers: at most 20 steps for each claim not yet taken, one for each slot not yet seen free, and 22 more |
| Shutdown.QuietProgress | src/main/logmoko_file_log_handler.c:48-98 | such a run never gets stuck before the consumer has exited |
| Shutdown.ShutdownExact | src/main/logmoko_file_log_handler.c:81-83 | at exit the delivered messages are those below tail, and they are all accepted ones if and only if, when the handler became quiet, the consumer was not past its last drain pass with a record outstanding |
| Shutdown.ExitDeliversBelowTail | src/main/logmoko_file_log_handler.c:48-83 | for any reachable exited state: everything claimed was delivered if and only if at the last failing drain peek every claim ever made had been made and published |
| Shutdown.RepeekDeliversAll | src/main/logmoko_file_log_handler.c:81-83 | the variant that peeks again after seeing running = 0 delivers everything once producers are finished when running is cleared |
| HandlerEnd.ReturnsAfterExit | src/main/logmoko_file_log_handler.c:180-191 | in every run of every variant destroy is past its join only when the consumer has exited with nothing left in its store buffer |
| HandlerEnd.ReturnedDelivers | src/main/logmoko_file_log_handler.c:180-191 | what holds once destroy has returned: exactly the claims below tail were delivered, each as its record says, and they are all claims ever made if and only if at the last drain peek all of them had been made and published |
| HandlerEnd.RingIsFree | src/main/logmoko_file_log_handler.c:188-193 | with destroy past the join and no producer inside log_impl the only step left to anyone is a new call, and running is 0: freeing the ring pulls it from under nobody |
| HandlerEnd.DestroyProgress | src/main/logmoko_file_log_handler.c:180-188 | after a stop, with producers finished, some step that is neither a call nor spurious is enabled until destroy has returned |
| HandlerEnd.LateCallReturns | src/main/logmoko_file_log_handler.c:167-168 | a call that loads running = 0 goes back to its caller and changes nothing else in any thread or in memory |
| HandlerEnd.LateCallsClaimNothing | src/main/logmoko_file_log_handler.c:163-178 | over every run after running = 0 has reached memory no call gets past the check any more, and the claims added are at most the producers that were between check and claim at that moment |
| HandlerEnd.ExitExactly | src/main/logmoko_file_log_handler.c:48-98 | every run to an exited consumer splits at its last drain peek, which failed; everything was delivered if and only if in the very state of that peek everything ever to be claimed had been claimed and published |
| HandlerEnd.EnvironmentIsFree | src/main/logmoko.h:130 | the model holds nothing back: calls, spurious failures of the weak CAS, spurious wake-ups and each buffered store are enabled whenever they can happen |
| AsyncWitness.AcceptedButLost | src/main/logmoko_file_log_handler.c:81-83 | the loop as written: for every ring size and record a run in which a call returns, accepted and counted, before running is cleared, and the consumer exits without delivering it |
| AsyncWitness.OneSlotOverfills | src/main/logmoko.h:101-108 | why the ring has at least two slots: with one, two calls are accepted with nothing consumed |
| Words.NextPow2 | src/main/logmoko.h:101-107 | the result is the least power of two >= max(v, 2) for every v <= 2^63, and 0 above |
| Words.SmearDoubles | src/main/logmoko.h:104-105 | each or with a shift doubles the length of the run of ones below the top bit |
| Words.MaskIsMod | src/main/logmoko.h:126 | pos & (2^k - 1) is pos modulo 2^k |
| WordRing.WrapKeepsIndex | src/main/logmoko.h:126 | masking a wrapped 64-bit cursor gives the slot of the unwrapped one, across any number of wraps |
| WordRing.DiffExact | src/main/logmoko.h:128 | with subtraction that wraps in two's complement, the signed difference of two wrapped counters is their true difference if and only if that fits the signed type |
| WordRing.OverflowExactly | src/main/logmoko.h:128 | where C itself leaves that subtraction undefined, for counters less than 2^63 apart: exactly where they lie on different sides of an odd multiple of 2^63; elsewhere C and the wrapping difference agree |
| WordRing.NoOverflowBelowHalf | src/main/logmoko.h:126-164 | no subtraction of enqueue or peek overflows while head + n is below 2^63 |
| WordRing.WordVerdict | src/main/logmoko.h:126-149 | the enqueue loop over words looks at the slot and takes the branch of the unbounded state machine while its cursor lags head by less than 2^62 |
| WordRing.WordCas | src/main/logmoko.h:130-131 | under the same bound the CAS over words succeeds in the same states |
| WordRing.WordPeek | src/main/logmoko.h:158-176 | with wrapping subtraction the peek and consume computations over words agree with the unbounded ones whatever the cursors |
| WordRing.InitStamps | src/main/logmoko.h:110-113 | slot i starts with stamp i |
| WordRing.RingSize | src/main/logmoko_file_log_handler.c:131-132 | a configured unsigned 32-bit size is rounded to a power of two between 2 and 2^32 |
| WordRing.Ring.constructor | src/main/logmoko_file_log_handler.c:130-145 | a fresh ring is the empty queue |
| WordRing.Ring.Enqueue | src/main/logmoko.h:120-151 | used by one thread over wrapping words: succeeds if and only if fewer than n records are queued, then appends a message with the fields of the record and its data up to the first NUL, cut at 2047 bytes; otherwise changes nothing |
| WordRing.Ring.FillSlot | src/main/logmoko.h:135-143 | level, line, file, name, the first min(data_len, 2047) bytes and a NUL behind them end up in the slot; other slots keep theirs |
| WordRing.Ring.Publish | src/main/logmoko.h:130-145 | claiming and publishing appends exactly the accepted message |
| WordRing.Ring.Peek | src/main/logmoko.h:158-164 | finds a slot if and only if the queue is not empty, and it reads as the oldest message |
| WordRing.Ring.Release | src/main/logmoko.h:170-176 | removes exactly the oldest message and frees its slot for the next lap |
| Rotation.ShiftBackups | src/main/logmoko_file_log_handler.c:8-16 | the descending rename loop moves every file up one suffix, drops only what was at max, and leaves what it must when a suffix is missing (POSIX rename) |
| Rotation.RotationKeepsChain | src/main/logmoko_file_log_handler.c:8-16 | after any rotation backup i is the i-th most recently closed file and there are at most max of them |
| Rotation.RotationKeepsNewest | src/main/logmoko_file_log_handler.c:8-16 | in a directory with gaps or left-over suffixes, too, the files closed since are backups 1, 2, ... newest first |
| Rotation.ChainIsSuffix | src/main/logmoko_file_log_handler.c:3-22 | backups oldest to newest and the active file are a suffix of everything ever written; only whole old files are gone |
| Rotation.BackupsAreNewest | src/main/logmoko_file_log_handler.c:3-22 | the backups read from the directory are the newest closed files in order |
| FileSink.AcceptConserves | src/main/logmoko_file_log_handler.c:51-71 | an open sink stages exactly one line per record, never cuts one of up to 2559 bytes, keeps the staging buffer below 65536 bytes and closed + active + staged = all lines, each inside one file |
| FileSink.StepConserves | src/main/logmoko_file_log_handler.c:48-104 | every sink operation keeps that conservation law |
| FileSink.RotatesExactly | src/main/logmoko_file_log_handler.c:52-79 | an event that writes staged bytes out closes the file, with them, if and only if the limit is positive and file plus staged bytes reach it; otherwise they are appended; an event that writes nothing out leaves closed and active files alone |
| FileSink.StagesExactly | src/main/logmoko_file_log_handler.c:52-68 | a line goes behind what is staged, or to an empty buffer if less than 2560 of 65536 bytes were left, whole or cut to the room less one |
| FileSink.BelowLimitAfterWriting | src/main/logmoko_file_log_handler.c:54-61 | with a positive limit the active file is shorter than it after any write-out, whatever it held before |
| FileSink.RunStaysBelowLimit | src/main/logmoko_file_log_handler.c:54-79 | over any run: nothing has been written out yet, or the active file is below the limit |
| FileSink.NoLimitNoRotation | src/main/logmoko_file_log_handler.c:57-59 | with max_file_size <= 0 no run ever closes a file |
| FileSink.RotatedFileSizes | src/main/logmoko_file_log_handler.c:54-61 | over any run with a constant positive limit, every file begun by a rotation is closed with a size in [max, max + 65534] |
| FileSink.FileSink.constructor | src/main/logmoko_file_log_handler.c:111-128 | opening for append in any directory takes over its content and backups, contiguous or not; current_file_size is the length of the file |
| FileSink.FileSink.NewestOnDisk | src/main/logmoko_file_log_handler.c:3-22 | whatever the directory held at first, the newest backups and the active file are the newest part of all written since the sink was opened, whole files apart |
| FileSink.FileSink.Rotate | src/main/logmoko_file_log_handler.c:3-22 | suffixes shift by one, the new file is empty, the size is reset even if the file cannot be reopened |
| FileSink.FileSink.WriteOut | src/main/logmoko_file_log_handler.c:55-56 | the file grows by exactly the staged bytes and the counted size equals its length |
| FileSink.FileSink.FlushBuffer | src/main/logmoko_file_log_handler.c:55-60 | bytes on disk, rotation and staging refine the whole-line Flush |
| FileSink.FileSink.FormatInto | src/main/logmoko_handler.c:266-288 | snprintf plus clamp: the staged bytes grow by the text cut to the room left, and the NUL fits |
| FileSink.FileSink.WriteLine | src/main/logmoko_file_log_handler.c:52-68 | one ready slot: buffer, file, size counter and backups together refine the whole-line Accept |
| FileSink.FileSink.IdleFlush | src/main/logmoko_file_log_handler.c:73-79 | after a drain pass with the file open nothing is staged |
| FileSink.FileSink.FinalFlush | src/main/logmoko_file_log_handler.c:101-104 | writes what is staged to the open file, and does nothing at all if nothing is |
| FileSink.FileSink.DiskIsSuffix | src/main/logmoko_file_log_handler.c:3-22 | if the backups found at opening were contiguous and within the limit, what is on disk is the newest part of everything ever written, at most max_backup_files whole backups |
| EndToEnd.WrittenInClaimOrder | src/main/logmoko_file_log_handler.c:43-109 | producers, ring, consumer and file together: all bytes ever written plus those staged are the old content followed by one formatted line per taken claim, in winning-CAS order |
| EndToEnd.FilesCompleteAtRest | src/main/logmoko_file_log_handler.c:73-97 | with producers back and the consumer parked the files hold a line for every record ever accepted and nothing is staged |
| EndToEnd.FilesAtExit | src/main/logmoko_file_log_handler.c:81-108 | when the consumer has exited nothing is staged, and the files hold a line for every accepted record if and only if at its last failing drain peek every claim ever made had been made and published |
| EndToEnd.FilesOnDisk | src/main/logmoko_file_log_handler.c:3-109 | the same on a real directory, whatever it held at first: backups kept and active file, oldest to newest, behind the whole files rotated away and before what is staged, are the old content and one formatted line per record taken, in winning-CAS order |
| EndToEnd.EventsDrive | src/main/logmoko_file_log_handler.c:48-104 | a run drives the sink by the lines, idle flushes and final flush it contains, and nothing is staged when the final flush comes |
| FileSink.Consume | src/main/logmoko_file_log_handler.c:48-104 | the consumer's calls on buffer, file and backups together refine the whole-line sink over any sequence of them |
| EndToEnd.FinalFlushIsEmpty | src/main/logmoko_file_log_handler.c:101-104 | the flush after the loop has nothing to write while the file is open |
| EndToEnd.PlainRun | src/main/logmoko_file_log_handler.c:43-109 | forgetting the sink leaves a run of the threads, so all ring results apply |
| SpscQueue.StepOk | benchmark/fmtlog.h:189-230 | each load and store of either thread keeps the block layout: unread blocks intact, marker never read as a size, cached free count conservative |
| SpscQueue.ReachableOk | benchmark/fmtlog.h:175-238 | from the zeroed queue, over every interleaving, the layout holds and the next access of either thread lies inside the array |
| SpscQueue.StepRefinesFifo | benchmark/fmtlog.h:175-230 | refinement of a FIFO of messages: push appends the blocks as written, the store of pop removes the oldest, nothing else changes the queue |
| SpscQueue.PoppedInPushOrder | benchmark/fmtlog.h:175-238 | over every interleaving from the zeroed queue: the blocks the reader has stepped over, as it found them, followed by what is unread, are the messages pushed, as published, once each and in push order |
| SpscQueue.FrontIsOldest | benchmark/fmtlog.h:217-225 | front returns null if and only if nothing is unread at its last load, and otherwise points at the oldest unread message, whole |
| SpscQueue.HeldMessageStable | benchmark/fmtlog.h:217-230 | no writer step changes a block of the message the reader holds |
| SpscQueue.AllocIsSafe | benchmark/fmtlog.h:189-215 | the blocks handed out hold the sz bytes asked for and an 8-byte header with less than 8 to spare, lie in the array, apart from everything unread; the cached count never promises more than is free |
| SpscQueue.PushedSize | benchmark/fmtlog.h:211-215 | what push publishes carries sz + 8 as its size, in blocks of 8 bytes that hold it with less than 8 to spare |
| SpscQueue.PopLength | benchmark/fmtlog.h:227-230 | pop steps over exactly the blocks that the size in the header fills, the last one perhaps in part |
| SpscQueue.FilledStays | benchmark/fmtlog.h:189-215 | what the writer has put into its block stays there, whatever the reader does, until it is pushed; push adds the size only |
| SpscQueue.AllocVerdictExact | benchmark/fmtlog.h:192-209 | over every interleaving: a call of alloc that loads read_idx fails if and only if at that load no free run, behind the write index or at the front, was longer than the (sz + 15) / 8 blocks of the message |
| SpscQueue.CachedVerdictSound | benchmark/fmtlog.h:189-215 | a call that succeeds on the cached count alone has a free run longer than the message behind the write index |
| SpscQueue.HoldsFirst | benchmark/fmtlog.h:217-230 | the first message of a run starts at its first block, as long as its header says |
| Seqlock.ReturnsOneTriple | benchmark/fmtlog.h:288-297 | a value tsc2ns returns is computed from one triple of one saveParam, provided the counter does not go round once during the read |
| Seqlock.AcceptsExactly | benchmark/fmtlog.h:288-297 | the retry test accepts if and only if the counter has moved by a multiple of 2^32 from the even value at or below the one first seen |
| Seqlock.StepOk | benchmark/fmtlog.h:347-358 | each load and store keeps the invariant tying fields, counter and what the reader has loaded to the triples saved |
| Seqlock.ConvertExactly | benchmark/fmtlog.h:288-297 | the base time converts to base_ns, any other to less than 1 ns from base_ns + (tsc - base_tsc) * ns_per_tsc, truncated towards base_ns |
| Seqlock.ConvertMonotone | benchmark/fmtlog.h:288-297 | with one triple and a rate that is not negative a later counter never converts to an earlier time |
| KWayMerge.Poller.Poll | benchmark/fmtlog-inl.h:422-468 | one poll emits exactly what it pops, per queue in push order, only due and registered, and in time order if every queue is; a queue that had a node, or a new buffer, is without one afterwards exactly if it had no header, nothing that had arrived was left and its thread was then seen finished, and no other queue has one; in every other queue nothing is left that had arrived by the fetch and is due, or, after a stop at an unregistered id, earlier than the message it stopped at |
| KWayMerge.HeadsSpeak | benchmark/fmtlog-inl.h:460-468 | with the queues in time order this holds of every message left, not just of the first of each queue |
| KWayMerge.LossExactly | benchmark/fmtlog-inl.h:441-451 | a dropped queue loses messages exactly if its thread pushed some between the null front and the test that found it finished, and then just those |
| KWayMerge.Poller.TakeOver | benchmark/fmtlog-inl.h:432-451 | the queues with a node afterwards are the ones that had one and the new buffers, except exactly those without a header, with nothing left that had arrived and with a finished thread; and a node is left without header only if nothing that had arrived is in its queue |
| KWayMerge.Poller.FetchMissing | benchmark/fmtlog-inl.h:441-451 | the nodes afterwards are exactly the old ones, with the header there was to fetch, less those without any whose thread is finished |
| KWayMerge.Poller.FetchAt | benchmark/fmtlog-inl.h:441-451 | one turn: the node is fetched and passed, or overwritten by the last one and looked at again, no other node lost |
| KWayMerge.Poller.AdjustHeap | benchmark/fmtlog-inl.h:408-420 | restores the min-heap from i on, permuting the nodes |
| KWayMerge.Poller.EarliestChild | benchmark/fmtlog-inl.h:410-415 | the winner is no later than node and children, and a child wins only if strictly earlier (null = never) |
| KWayMerge.Poller.BuildHeap | benchmark/fmtlog-inl.h:455-458 | turns any node list into a heap of the same nodes |
| KWayMerge.Poller.PopRoot | benchmark/fmtlog-inl.h:464-466 | pops the root of its queue and refetches just that header: null only if nothing that has arrived is left |
| KWayMerge.Poller.EmitRoot | benchmark/fmtlog-inl.h:460-468 | one turn of the merge loop: no other node changes, and heap, time order, per-queue order and completeness are kept |
| KWayMerge.Poller.Merge | benchmark/fmtlog-inl.h:460-468 | the loop ends, keeps a node for every queue, emits only admitted messages in time order, and overlooks none that had arrived at the fetch |
| KWayMerge.RootIsEarliest | benchmark/fmtlog-inl.h:460-463 | no header of a heap is earlier than the root |
| KWayMerge.SwapMovesHole | benchmark/fmtlog-inl.h:417-418 | swapping with the earliest child moves the one disorder down |
| KWayMerge.StaysAscending | benchmark/fmtlog-inl.h:460-468 | emitting the root keeps the output in time order and nothing left is earlier |
| IntrusiveList.Link.constructor | src/main/logmoko_list.c:3-8 | a new link is the circle of itself alone |
| IntrusiveList.IsEmpty | src/main/logmoko_list.c:10-16 | true if and only if no node is on the circle |
| IntrusiveList.Insert | src/main/logmoko_list.c:18-25 | rewriting four pointers makes the entry the last of the circle |
| IntrusiveList.Remove | src/main/logmoko_list.c:27-34 | the other nodes form the circle in the same order; the removed node keeps its pointers |
| IntrusiveList.Size | src/main/logmoko_list.c:36-45 | counts the nodes |
| IntrusiveList.RemoveEach | src/main/logmoko_list.h:14-25 | with saved and restored cursor, removing and freeing while iterating visits every node once, in order, empties the list, and reads or writes no freed node |
| Registry.Registry.SearchHandler | src/main/logmoko.c:84-97 | finds a live handler of that name if and only if there is one |
| Registry.Registry.SearchLogger | src/main/logmoko.c:71-82 | -1 only if no logger has the name |
| Registry.Registry.GetLogger | src/main/logmoko_logger.c:15-35 | the live logger of that name, or one new logger at level INFO; the registry invariant is kept |
| Registry.Registry.GetHandler | src/main/logmoko_handler.c:50-160 | the live handler of that name whatever its kind, or one new handler of the kind; nothing, even for a live name, if a file handler is asked for without a file name |
| Registry.Registry.Attach | src/main/logmoko_logger.c:119-134 | succeeds if and only if both exist, adds at most one reference and keeps nr_logger_ref = number of referencing loggers |
| Registry.Registry.Detach | src/main/logmoko_logger.c:136-153 | succeeds if and only if attached, removes just that reference and its count |
| Registry.Registry.DestroyLogger | src/main/logmoko_logger.c:50-74 | removes the logger and all its references, every count adjusted |
| Registry.Registry.DestroyHandler | src/main/logmoko_handler.c:162-189 | refused if and only if some logger still refers to the handler |
| Registry.Registry.Destroy | src/main/logmoko.c:45-69 | on the lists as values: every destroy succeeds, every logger and every handler goes once in list order, and nothing is left |
| Registry.Registry.SetLoggerLevel | src/main/logmoko_logger.c:76-82 | changes the level only to a valid one |
| Registry.Registry.SetHandlerLevel | src/main/logmoko_handler.c:191-197 | changes the level only to a valid one |
| Registry.Registry.SetFormat | src/main/logmoko_handler.c:290-294 | changes nothing but the format |
| Registry.Registry.SetRotation | src/main/logmoko_file_log_handler.c:208-217 | changes the limits of file handlers only |
| Registry.Registry.SetPsk | src/main/logmoko_socket_log_handler.c:173-180 | sets the key of socket handlers only |
| Registry.Registry.Dispatch | src/main/logmoko_logger.c:208-233 | calls exactly the handlers of Reached, none if the logger or the level forbids it |
| Registry.ReachedExactly | src/main/logmoko_logger.c:225-230 | those are exactly the attached handlers whose level admits the call, once each |
| Registry.ReachedInOrder | src/main/logmoko_logger.c:225-230 | they are called in the order in which they were attached |
| Registry.CountIsNumber | src/main/logmoko_logger.c:128-132 | the count kept for a handler is the number of loggers that refer to it |
| Registry.AttachKeeps | src/main/logmoko_logger.c:128-132 | one reference more and one count more keep the registry invariant |
| Registry.DetachKeeps | src/main/logmoko_logger.c:148-151 | the count is positive, and one reference and one count less keep the invariant |
| Registry.CountZero | src/main/logmoko_handler.c:169 | a zero count means no logger refers to the handler |
| RegistryHeap.Registry.constructor | src/main/logmoko.c:25-29 | two list heads, each a circle of its own |
| RegistryHeap.Registry.NewLogger | src/main/logmoko_logger.c:22-33 | on the heap: the new logger is the last link of its circle, all lists stay disjoint circles, and the values change as GetLogger says |
| RegistryHeap.Registry.NewHandler | src/main/logmoko_handler.c:50-160 | the same for a new handler |
| RegistryHeap.Registry.SearchRef | src/main/logmoko_logger.c:89-98 | walking the reference circle finds the reference to the handler if and only if the logger has one |
| RegistryHeap.Registry.Attach | src/main/logmoko_logger.c:119-134 | on the heap: a reference is linked and nr_logger_ref counted up if and only if there was none; the values change as Attach says |
| RegistryHeap.Registry.Detach | src/main/logmoko_logger.c:136-153 | on the heap: exactly the reference to that handler is unlinked and freed and the handler counts one less |
| RegistryHeap.Registry.DestroyLogger | src/main/logmoko_logger.c:50-74 | saving and restoring the cursor while every reference is unlinked and freed under it, then unlinking and freeing the logger: the other lists are intact, the values change as DestroyLogger says, no freed link is read |
| RegistryHeap.Registry.DestroyHandler | src/main/logmoko_handler.c:162-189 | on the heap: refused if and only if some logger refers to the handler, otherwise unlinked and freed with no pointer left to it |
| RegistryHeap.Registry.Destroy | src/main/logmoko.c:45-69 | both loops with saved and restored cursor end, visit every logger and then every handler once in list order, and leave both circles empty; every logger, every reference and every handler is freed, and nothing is read once it is |
| RegistryHeap.Registry.RefersByName | src/main/logmoko_logger.c:89-98 | comparing pointers to handlers is the same as comparing names |
| ConfigApply.ApplyIsIdempotent | src/main/logmoko_config_file.c:188-243 | applying a configuration to what it produced changes no handler, kind, level, format, limit, key, logger, attachment or count, whatever sections repeat or clash |
| ConfigApply.ApplyEstablishes | src/main/logmoko_config_file.c:196-241 | afterwards every named handler and logger exists, every listed live handler is attached and further sections have nothing to change |
| ConfigApply.Apply | src/main/logmoko_config_file.c:188-243 | the loops over a live registry reach that outcome and keep the registry invariant |
| ConfigApply.InitFromFile | src/main/logmoko_config_file.c:255-265 | initialising without a path applies the file twice, with the outcome of applying it once |
| ConfigApply.ApplyHandler | src/main/logmoko_config_file.c:196-227 | one handler section gets or creates its target and configures that handler only |
| ConfigApply.ApplyLogger | src/main/logmoko_config_file.c:229-241 | one logger section gets or creates its logger, sets its level and attaches the live handlers listed |
| ConfigApply.Configure | src/main/logmoko_config_file.c:205-226 | settings reach only handlers of the right kind, even if the section clashes with a live one |
| ConfigApply.PassSettles | src/main/logmoko_config_file.c:196-227 | after one pass over the handler sections another pass can change no handler |
| ConfigApply.LastWriterWins | src/main/logmoko_config_file.c:205-226 | each setting after the sections is that of the last section that gives it to a handler of that name and kind, or untouched; nothing else changes |
| ConfigApply.LoggerPassSettles | src/main/logmoko_config_file.c:229-241 | the same for loggers |
| ConfigMeaning.HandlersConfigured | src/main/logmoko_config_file.c:196-227 | after a configuration every handler has the level, format, rotation limits (20971520 and 10 for what is left out) and key of the last section that gives them to it; console sections speak of the handler "console", file sections only with a file name |
| ConfigMeaning.HandlersExist | src/main/logmoko_config_file.c:196-204 | every handler a section speaks of exists afterwards |
| ConfigMeaning.OthersUntouched | src/main/logmoko_config_file.c:188-243 | a handler no section speaks of keeps its place, name, kind, level, format, limits and key |
| ConfigMeaning.HandlersKept | src/main/logmoko_config_file.c:188-243 | a handler that was there keeps its place, name and kind, and every setting that no section gives it |
| ConfigMeaning.HandlersCreated | src/main/logmoko_config_file.c:196-227 | any other handler is of the kind of the first section that speaks of it, and what no section gives it is level 0, the default format, 20971520 bytes, 10 backups and no key |
| ConfigMeaning.LoggersKept | src/main/logmoko_config_file.c:229-241 | a logger that was there keeps its place and its references, gains exactly those that are listed and exist, and keeps its level if no section gives it a valid one |
| ConfigMeaning.LoggersCreated | src/main/logmoko_config_file.c:229-241 | any other logger is named by a section, has exactly the references that are listed and exist, and level INFO if no section gives it a valid one |
| ConfigMeaning.FormatsByName | src/main/logmoko_handler.c:256-264 | "simple" and "json" in any mixture of cases name their formats and no other name does |
| ConfigMeaning.LoggersConfigured | src/main/logmoko_config_file.c:229-241 | every logger named exists, refers to each listed handler that exists and has the level of the last section that gives it a valid one |
| JsonEscape.EscapeInto | src/main/logmoko_handler.c:226-240 | for every text and dst_size >= 1 output and NUL fit, the output is the escaped form of a prefix, and it stops early only for lack of room |
| JsonEscape.EscapedByte | src/main/logmoko_handler.c:229-237 | quote and backslash get a backslash before them, newline becomes a backslash and an n, every other byte stays as it is |
| JsonEscape.UnescapeEscape | src/main/logmoko_handler.c:226-240 | undoing the escapes gives the text back |
| JsonEscape.EscapedOutput | src/main/logmoko_handler.c:226-240 | truncated output undoes to a prefix (never half an escape), to the whole text if and only if all but its last byte leave two bytes to spare, in particular if the escaped length is at most dst_size - 2; well-formed exactly if newline is the only control character kept |
| JsonEscape.EscapeIsJson | src/main/logmoko_handler.c:226-240 | the escaped text obeys the string grammar of section 7 of RFC 8259 if and only if newline is its only control character |

## Left out

- General C11 weak memory: the handler is modelled under TSO, the fmtlog queue and seqlock with sequentially consistent steps, and nothing beyond that is claimed.
- WordRing.Ring.Enqueue: used by one thread at a time; for concurrent use the word computations are tied to the state machine by WordRing.WordVerdict, WordRing.WordCas and WordRing.WordPeek.
- WordRing.DiffExact: the subtraction of two signed words is taken to wrap in two's complement, as compilers for the supported processors do; C leaves it undefined where WordRing.OverflowExactly says, which the ring first meets when a cursor crosses 2^63.
- WordRing.WordPeek: relies on the same wrapping subtraction.
- WordRing.WordVerdict: assumes the same, and that a cursor value in use is less than 2^62 claims old; a producer suspended for longer than that is outside the model.
- Seqlock.ReturnsOneTriple: assumes that the 32-bit counter does not go round during one read; Seqlock.AcceptsExactly says what the test accepts without that assumption.
- SpscQueue.StepOk: message sizes are at most 2^32 - 16 bytes, so that the 32-bit block arithmetic of alloc does not wrap.
- Shutdown.ShutdownExact: producers are finished when `running` is clear, as destroy requires; freeing the ring and closing the file after the join are not modelled as steps (HandlerEnd.RingIsFree says that nobody can reach the ring by then).
- EndToEnd.WrittenInClaimOrder: states what the files hold while every rotation could reopen the file; after a failed reopening records are taken from the ring and dropped, as in the code.
- FileSink.RotatedFileSizes: the limit does not change during the run; changing the file name or the limits while the consumer runs is not modelled.
- FileSink.FileSink.Rotate: file names are suffix numbers, so truncation of paths longer than 511 characters is not captured; file sizes are unbounded integers; writes and renames of existing files succeed.
- FileSink.FileSink.FormatInto: a format function returns the length of the text it would write, as snprintf does; a custom one that returns more than it wrote is not captured.
- KWayMerge.Poller.Poll: what has arrived in a queue is a parameter at each fetch and grows; formatting and flushing of the emitted text, and reading a dropped buffer after it is deleted, are not captured.
- KWayMerge.FrontOf: the fmtlog queue below the merge is the sequence of messages pushed, as justified by SpscQueue.FrontIsOldest and SpscQueue.PoppedInPushOrder.
- Registry.Registry.Destroy: handlers and loggers are identified by their unique names and lists are sequences; cursors, pointers and freed memory are the subject of RegistryHeap.Registry.Destroy.
- RegistryHeap.Registry.Destroy: stopping each handler's thread is not part of it (see Shutdown), nor are pointers that callers keep after a destroy; levels, formats and limits are changed on the values only.
- Registry.Registry.GetHandler: names are never null and creation always succeeds; file name, ident and facility of a new handler are not recorded.
- ConfigApply.ApplyIsIdempotent: listener lists of socket handlers are not modelled, since attaching a listener appends and is not idempotent (src/main/logmoko_socket_log_handler.c:151-171).
- Registry concurrency: the user guide asks for setup before threads start.
- Sockets, syslog, console output, encryption, time, strftime and snprintf: calls into other libraries.
- Parsing of the configuration text: the model starts from the parsed sections.
- Failures of allocation, thread creation and the first opening of a file.
- The console, socket and syslog consumer loops, the rate limiter, the vendored log.c, benchmarks, examples and tests: repetitions of the protocol or plumbing.
