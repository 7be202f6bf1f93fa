# Verified models of the systems-programming exercises

This project models the concurrent exercises of `Classes1`, the linked chunk buffer of `Classes5` and the circular
buffer of `Classes3`, and proves what they keep, where their runs end, and what their data structures stand for.
`dafny verify dfyconfig.toml` checks everything.

## How the thread programs are modelled

A program is a state machine. A state holds the shared object, the mutexes, and for every thread the place it has
reached and the calls it has left; numbers of threads, calls per thread and buffer sizes are arbitrary. A step is one
lock, test, wait, wake-up, broadcast, update or unlock of one thread. A run is a start state and a sequence of actions,
each of which must be possible where it is taken, so a statement about all runs is a statement about all schedules.
`pthread_cond_wait` may return without a broadcast: such spurious wake-ups are actions of their own. Safety is proved
with any number of them; bounds on the length of runs count them separately; a run is maximal when nothing but a
spurious wake-up could happen. Values from `rand()` are inputs of the actions.

| file | what it models |
|---|---|
| `Monitors.dfy` | the threads of `Task2.c` and `Task6.c` around their one mutex and condition variable |
| `Ring.dfy`, `BufferRuns.dfy` | their ring of cells, and both programs as one machine with two disciplines |
| `BoundedBuffer.dfy`, `PhasedBuffer.dfy` | `Task2.c` and `Task6.c`: exact outcomes, and the buffers as classes over arrays |
| `ReaderGroup.dfy` | the reader code that `Task1.c` and `Task4.c` share |
| `ReadersWriters.dfy` | `Task1.c` |
| `RoundSpec.dfy`, `CriticRounds.dfy` | what `Task4.c` promises, as a language of logs, and `Task4.c` itself |
| `TryReadersWriters.dfy` | `Task3.c` (no limit) and `Task5.c` (a limit) |
| `ChunkLists.dfy`, `LinkedBuffer.dfy` | the linked buffer, one call at a time |
| `LinkedRcu.dfy`, `LinkedWriters.dfy` | a read overlapped by appends, and writes overlapped by writes |
| `CircularBuffer.dfy` | the circular buffer device |
| `Counting.dfy`, `ByteStrings.dfy` | sums over threads, and slices |

Some modelling decisions need saying. The writers' mutex is a plain binary lock whose owner may be the readers as a
group: the last reader out unlocks what the first one in locked, which POSIX.1-2017 (`pthread_mutex_unlock`) does not
define for a default mutex. A store to the shared datum is two steps, with an arbitrary value in between, so "every
read returns the latest completed write" needs the mutual exclusion that the locks give. Records of a run (values
written and read, logs) are part of the state but no step looks at them. The classes of `Task1.c`, `Task3.c` and
`Task5.c` carry the run of the machine that their calls have made (`start`, `run`), so what is proved about runs holds
of them; the methods of the classes of `Task2.c`, `Task4.c` and `Task6.c` return the steps of the machine they amount to.

Where the code departs from its own intent: `Task5.c:110` passes the array index where `allocate_object`
(`Task5.c:16`) expects the readers' limit, so object 0 gets limit 0. For limits of at least 1 no lock is ever leaked
(`QuietMeansUnlocked`); for limit 0 the first read that wins the trylock leaks the writers' mutex for ever
(`ZeroLimitLeaks`, `ZeroLimitBreaksQuiet`). `Task2.c:98` and `Task6.c:102-104` ask for equally many reads and writes,
and for divisibility by the size in `Task6.c`; the exact conditions for everybody to finish are proved instead, for
any numbers. `circular_read` ignores the count it is asked for (`StaysWithinCount`, `FullRingOverruns`,
`TwoBytesForOne`). A `linked_read` of 0 bytes moves the cursor past one chunk (`ReadOfNothing`). `total_length` is
added to without a lock and is the number of bytes in the list only if at most one of the overlapping calls of
`linked_write` has anything to write (`TotalIsExact`); what it lacks, readers at the end of the list do not see
(`CaughtUpReaderWaitsForLoss`).

## Model

| member | source | states |
|---|---|---|
| BufferRuns.RunIsFifo | Classes1/Task2.c:33-69 | in every run of Task2.c or Task6.c, with any spurious wake-ups, the values that rand() gave to the writes are, in order, the values read followed by the ring's contents, at most `size` of them, and the two indices agree with the count |
| BufferRuns.WriteIsPut | Classes1/Task2.c:61-64 | a writing step puts the value it was given, and nothing else, at the end of the queue |
| BufferRuns.ReadIsTake | Classes1/Task2.c:43-46 | a reading step returns the oldest value of the queue and takes it off |
| BufferRuns.RunWritesItsValues | Classes1/Task6.c:65-68 | over any run, what has been written is the sequence of the values given to its storing turns |
| BufferRuns.CommitAlone | Classes1/Task2.c:57-66 | past its wait loop a call, which nobody disturbs, wakes everybody exactly at the edge, changes the buffer by one put or take, and is about to unlock |
| BufferRuns.RunLosesNoWakeup | Classes1/Task2.c:35-41 | whenever the mutex is free, a sleeping thread finds its wait condition true, although broadcasts happen only at the edges |
| BufferRuns.RunLength | Classes1/Task2.c:71-89 | a run is no longer than a bound known before it starts, plus six steps for each spurious wake-up |
| BufferRuns.RunCanStop | Classes1/Task2.c:71-89 | from any reachable state a maximal run exists, without spurious wake-ups |
| BufferRuns.ActKeepsInv | Classes1/Task6.c:35-73 | every step of either program keeps mutual exclusion, the queue, the wake-up invariant and, for Task6.c, the phases |
| BufferRuns.ActKeepsProgram | Classes1/Task2.c:71-89 | no operation is lost or repeated: operations made plus calls left stay constant |
| BoundedBuffer.ExactOutcome | Classes1/Task2.c:33-69 | every maximal run has made min(r, w) reads and min(w, r + size) writes, and everybody has finished exactly if r <= w <= r + size |
| BoundedBuffer.ConcurrentBuffer.constructor | Classes1/Task2.c:17-27 | a new buffer is empty with both indices at 0 |
| BoundedBuffer.ConcurrentBuffer.ReadItem | Classes1/Task2.c:39-46 | takes the oldest value off the queue the array stands for and broadcasts exactly if number_items was `size`; it makes a run of the machine that logs the value as read and wakes the sleepers exactly then |
| BoundedBuffer.ConcurrentBuffer.WriteItem | Classes1/Task2.c:57-66 | puts the value at the end of the queue and broadcasts exactly if number_items was 0; it makes a run of the machine that logs the value as written and wakes the sleepers exactly then |
| PhasedBuffer.RunFillsThenDrains | Classes1/Task6.c:37-70 | the committed operations are always `size` writes, then `size` reads, repeated, cut off anywhere; with the mutex free the flag and both indices tell where |
| PhasedBuffer.StopsFillingOrDraining | Classes1/Task6.c:35-73 | a stopped run has either made all its writes at a multiple of `size` reads, or all its reads at a multiple of `size` writes |
| PhasedBuffer.ExactOutcome | Classes1/Task6.c:102-104 | with as many reads as writes w, every maximal run has made all writes, leaves w % size values, finishes everybody exactly if size divides w, and otherwise leaves only sleeping readers |
| PhasedBuffer.FinishCondition | Classes1/Task6.c:35-73 | the exact condition for everybody to finish, for any numbers of reads and writes |
| PhasedBuffer.ConcurrentBuffer.constructor | Classes1/Task6.c:18-29 | a new buffer is empty, in its writing phase, with both indices at 0 |
| PhasedBuffer.ConcurrentBuffer.ReadItem | Classes1/Task6.c:41-49 | takes the oldest value, and clears reading_time and broadcasts exactly if number_items was 1; it makes a run of the machine that logs the value as read |
| PhasedBuffer.ConcurrentBuffer.WriteItem | Classes1/Task6.c:60-70 | appends the value, and sets reading_time and broadcasts exactly if number_items was size - 1; it makes a run of the machine that logs the value as written |
| ReaderGroup.StepKeepsInv | Classes1/Task1.c:32-47 | every reader step keeps the count exact and the group's hold on the writers' mutex in step with it, whichever thread took or gives back the lock |
| ReaderGroup.ReadingLocksWritersOut | Classes1/Task1.c:34-40 | while any reader reads, the group holds the writers' mutex |
| ReaderGroup.StepRespectsLock | Classes1/Task1.c:35-45 | readers take the writers' mutex only when it is free and release it only when they hold it |
| ReaderGroup.BlockedReaders | Classes1/Task1.c:33-38 | readers that cannot move have finished and hold nothing, unless a writer or the critic holds the writers' mutex |
| ReadersWriters.RunIsAtomicRegister | Classes1/Task1.c:24-47 | in every run every read returns the value of the latest completed write, or the initial value |
| ReadersWriters.ReadersExcludeWriters | Classes1/Task1.c:34-42 | while a reader reads, no writer is between its lock and its unlock |
| ReadersWriters.HeldByReadersKeepsData | Classes1/Task1.c:35-45 | from the first reader's lock to the last reader's unlock the datum does not change |
| ReadersWriters.SomebodyCanMove | Classes1/Task1.c:24-65 | in every reachable unfinished state some thread can move, even when a reader waits for writer_mutex holding reader_mutex |
| ReadersWriters.RunsFinish | Classes1/Task1.c:49-65 | a run has at most 11 steps a read and 4 a write, and one that cannot go on has made them all |
| ReadersWriters.BeginAlone | Classes1/Task1.c:33-38 | a reader that nobody disturbs makes five steps if it is the first and four if not, and they amount to one more reader, the group holding writer_mutex, and nothing else |
| ReadersWriters.EndAlone | Classes1/Task1.c:41-46 | likewise for the way out: one reader less, writer_mutex released exactly by the last, and nothing else |
| ReadersWriters.WriteAlone | Classes1/Task1.c:24-30 | the four steps of a write that nobody disturbs amount to the store, its entry in the log and one write less to make |
| ReadersWriters.ConcurrentObject.constructor | Classes1/Task1.c:13-22 | a new object shows an initial state of the machine: the initial value and no lock |
| ReadersWriters.ConcurrentObject.WriteToObject | Classes1/Task1.c:24-30 | runs the machine through one write; stores the value and leaves the locks and the count as they were |
| ReadersWriters.ConcurrentObject.BeginRead | Classes1/Task1.c:33-38 | runs the machine through the way in: one more reader, and the writers' mutex held |
| ReadersWriters.ConcurrentObject.ReadDatum | Classes1/Task1.c:40 | returns the value of the latest completed write, whoever else reads |
| ReadersWriters.ConcurrentObject.EndRead | Classes1/Task1.c:41-46 | runs the machine through the way out: one reader less, and the writers' mutex held exactly if readers remain |
| ReadersWriters.ConcurrentObject.ReadFromObject | Classes1/Task1.c:32-47 | a read that nobody overlaps is one event of the machine: it returns the latest completed write, logs it, and changes nothing else |
| RoundSpec.SavesTheCompletingValues | Classes1/Task4.c:67-71 | in a proper log the k-th value saved is that of the k-th write that completed a round, at most the last being unsaved |
| RoundSpec.EveryoneWritesBetweenSaves | Classes1/Task4.c:62-69 | in a proper log every writer writes between any two saves |
| RoundSpec.NobodyWritesBeforeTheSave | Classes1/Task4.c:58-60 | in a proper log nobody writes between the write that completes a round and the next save |
| RoundSpec.WritesCoverSaves | Classes1/Task4.c:62-65 | a writer has written at least once for every save, and once more if it is in the current round |
| CriticRounds.RunIsProper | Classes1/Task4.c:40-98 | in every run, with any spurious wake-ups, the reads, writes and saves make a proper log: reads and saves see the latest completed write and saves happen only when every writer has written since the last |
| CriticRounds.RunSavesTheRightValues | Classes1/Task4.c:83-98 | in every run the k-th value saved is that of the k-th write that completed a round, however many readers intervene |
| CriticRounds.ReadersExcludeOthers | Classes1/Task4.c:40-54 | while a reader reads, neither a writer nor the critic is in its critical section, and the datum is the latest completed write |
| CriticRounds.HeldByReadersKeepsData | Classes1/Task4.c:40-54 | from the first reader's lock to the last reader's unlock the datum does not change and nothing is written or saved: the log grows by reads of that datum only |
| CriticRounds.WhenTheMutexIsFree | Classes1/Task4.c:56-98 | with the mutex free, writers_count is the number of true entries, sleeping writers mean a full round and a sleeping critic an unfinished one |
| CriticRounds.ActKeepsInv | Classes1/Task4.c:40-98 | every step keeps mutual exclusion, the round's accounts, the wake-up invariant and the log proper |
| CriticRounds.StuckMeansFinished | Classes1/Task4.c:40-98 | when nobody can move, all readers and writers have finished and the critic sleeps |
| CriticRounds.ExactOutcome | Classes1/Task4.c:100-128 | every maximal run ends so, with every call made, saves at most any writer's number of runs, and at least one save exactly if every writer had something to write |
| CriticRounds.RunLength | Classes1/Task4.c:100-128 | with at least one writer a run is no longer than a bound known before it starts, plus five steps for each spurious wake-up |
| CriticRounds.RunCanStop | Classes1/Task4.c:100-128 | from any reachable state a maximal run exists, without spurious wake-ups |
| CriticRounds.NoWritersNeverStops | Classes1/Task4.c:83-98 | with no writers the bound fails: for any number of rounds there is a run, without spurious wake-ups, in which the critic saves that many times more |
| CriticRounds.CountAlone | Classes1/Task4.c:62-72 | past its wait loop a writer's steps amount to being counted and recorded once, waking everybody exactly if the count is full, and storing |
| CriticRounds.CloseAlone | Classes1/Task4.c:89-96 | past its wait loop the critic's steps, the clearing loop included, amount to an empty record, one save of the datum, and waking everybody |
| CriticRounds.ConcurrentObject.constructor | Classes1/Task4.c:18-34 | a new object shows an initial state of the machine: the initial datum and no writer recorded |
| CriticRounds.ConcurrentObject.CountTellsCompletion | Classes1/Task4.c:67 | comparing the two counts tells exactly whether every writer has written |
| CriticRounds.ConcurrentObject.WriteCounted | Classes1/Task4.c:62-71 | records the writer, stores the value, and broadcasts exactly when every writer is recorded; it makes a run of the machine that logs the write and wakes the sleepers exactly then |
| CriticRounds.ConcurrentObject.CloseRound | Classes1/Task4.c:89-96 | clears every record and the count and saves the datum; it makes a run of the machine that logs the save and wakes the sleepers |
| TryReadersWriters.AdmissionsAreCapped | Classes1/Task5.c:38-61 | at most `limit` readers are ever admitted, and never together with a writer |
| TryReadersWriters.RunIsAtomicRegister | Classes1/Task3.c:25-54 | every successful read returns the value of the latest completed write, or the initial value |
| TryReadersWriters.QuietMeansUnlocked | Classes1/Task5.c:54-59 | when no thread is inside a call, nobody is counted and both mutexes are free |
| TryReadersWriters.FailedWriteHasCause | Classes1/Task3.c:26-28 | a write fails only because another thread is inside a write or a read of the same object |
| TryReadersWriters.FailedTrylockHasCause | Classes1/Task3.c:38-41 | a read fails at the trylock only because a writer is in its critical section |
| TryReadersWriters.FailedCapHasCause | Classes1/Task5.c:45-48 | a read fails at the cap only with exactly `limit` readers admitted |
| TryReadersWriters.MarkTellsTrace | Classes1/Task5.c:27-61 | the mark on a call tells exactly whether one of its own steps since it began has changed the datum, the count or the writers' mutex |
| TryReadersWriters.FailureLeavesNoTrace | Classes1/Task5.c:28-48 | in any run, none of the steps that a call about to return false has made since it began has changed the object, nor does its return |
| TryReadersWriters.SomeCallCanGoOn | Classes1/Task5.c:27-61 | no deadlock, and no fairness needed: while any thread is inside a call, some call can go on |
| TryReadersWriters.CallIsShort | Classes1/Task5.c:27-61 | a call makes at most twelve steps of its own, successful or not and whatever the others do |
| TryReadersWriters.CallsUnderWayEnd | Classes1/Task3.c:25-54 | with no new calls a run has at most twelve steps a thread, and where no call can go on no thread is inside one |
| TryReadersWriters.BeginAlone | Classes1/Task5.c:39-50 | undisturbed, the steps of a read up to its first unlock amount to being let in, or turned away with nothing changed unless the limit is 0 |
| TryReadersWriters.EndAlone | Classes1/Task5.c:54-59 | undisturbed, the rest of a read amounts to one reader less, the mutex released exactly by the last |
| TryReadersWriters.WriteAlone | Classes1/Task3.c:25-34 | undisturbed, a write amounts to the store and its entry in the log, or to nothing if the mutex is held |
| TryReadersWriters.LeakIsForever | Classes1/Task5.c:45-48 | once the mutex is leaked no read and no write ever succeeds |
| TryReadersWriters.ZeroLimitLeaks | Classes1/Task5.c:40-48 | with limit 0 the first read that wins the trylock leaks the mutex |
| TryReadersWriters.ZeroLimitBreaksQuiet | Classes1/Task5.c:110 | with limit 0 a single read by a single thread leaves the mutex held with nobody inside a call |
| TryReadersWriters.ConcurrentObject.constructor | Classes1/Task5.c:16-25 | a new object shows an initial state of the machine: the initial value, its limit, and no lock |
| TryReadersWriters.ConcurrentObject.WriteToObject | Classes1/Task5.c:27-36 | runs the machine through one call; fails exactly if the mutex is held, and then changes nothing |
| TryReadersWriters.ConcurrentObject.BeginRead | Classes1/Task5.c:40-50 | runs the machine through the way in; fails exactly if a writer holds the mutex or the cap is reached, and then changes nothing, unless the limit is 0 |
| TryReadersWriters.ConcurrentObject.ReadDatum | Classes1/Task5.c:52 | returns the value of the latest completed write, whoever else reads |
| TryReadersWriters.ConcurrentObject.EndRead | Classes1/Task5.c:54-59 | runs the machine through the way out: one reader less; the last one frees the mutex |
| TryReadersWriters.ConcurrentObject.ReadFromObject | Classes1/Task5.c:38-61 | a read that nobody overlaps gives the latest completed write and logs it, or fails for exactly one of two reasons, and leaves the object as it was, unless the limit is 0 |
| ChunkLists.CeilIsLeastBoundary | Classes5/linked_buffer/mutex/linked_buffer.c:126-130 | the position a read begins at is the least chunk boundary not before the cursor, at most three bytes on |
| ChunkLists.ChunkingIsFlat | Classes5/linked_buffer/mutex/linked_buffer.c:166-179 | cutting an input into chunks and joining them again gives the input |
| LinkedBuffer.ReadFromBoundary | Classes5/linked_buffer/mutex/linked_buffer.c:120-151 | from a boundary a read of at least one byte is flat[f_pos .. min(f_pos + count, total)] and moves the cursor to the least boundary not before its end |
| LinkedBuffer.ReadFromInside | Classes5/linked_buffer/mutex/linked_buffer.c:126-143 | from inside a chunk a read returns what a read from the next boundary returns, and the cursor moves as far as it would from there |
| LinkedBuffer.ReadOfNothing | Classes5/linked_buffer/mutex/linked_buffer.c:120-151 | a read of 0 bytes returns nothing but moves the cursor by the length of the chunk it looks at; it leaves the cursor alone exactly if no chunk begins at or after it |
| LinkedBuffer.LaggingTotalHidesBytes | Classes5/linked_buffer/mutex/linked_buffer.c:108-109 | when total_length lags behind the list, a read from a boundary before the end finds nothing exactly if the cursor is beyond total_length |
| LinkedBuffer.CaughtUpReaderWaitsForLoss | Classes5/linked_buffer/mutex/linked_buffer.c:108-109 | a reader that has read everything while some bytes were missing from the total sees what is appended next exactly if that is at least as much as was lost |
| LinkedBuffer.ReadsConcatenate | Classes5/linked_buffer/mutex/linked_buffer.c:139-151 | a series of reads gives back the string without gaps exactly if the counts, laid end to end from the cursor, all end on boundaries, which can be checked beforehand; otherwise it misses at most three bytes a read |
| LinkedBuffer.Visit | Classes5/linked_buffer/mutex/linked_buffer.c:120-145 | a round of the loop either goes on with everything up to the next chunk copied, or has completed the read |
| LinkedBuffer.Buffer.Traverse | Classes5/linked_buffer/mutex/linked_buffer.c:120-145 | the loop computes the flat read, and fails exactly if copying from a chunk inside the read fails |
| LinkedBuffer.Buffer.Read | Classes5/linked_buffer/mutex/linked_buffer.c:97-154 | the call on any cursor and count: nothing beyond total_length, -EINTR if interrupted before the lock, -EFAULT on a failed copy, both without moving, else the flat read |
| LinkedBuffer.Buffer.CleanList | Classes5/linked_buffer/mutex/linked_buffer.c:69-84 | empties the list and the total |
| LinkedBuffer.Buffer.AddChunk | Classes5/linked_buffer/mutex/linked_buffer.c:191-194 | appends a chunk and keeps total_length the sum of the lengths |
| LinkedBuffer.Buffer.WriteAt | Classes5/linked_buffer/mutex/linked_buffer.c:166-197 | one round of the loop: a chunk appended, or the list cleared, or an error and nothing changed |
| LinkedBuffer.Buffer.Write | Classes5/linked_buffer/mutex/linked_buffer.c:156-205 | the call with any input and any faults: it leaves the list and the chunking of what came before the first stop, or nothing after a clear command; the cursor moves by as many bytes; total_length stays the sum of the lengths, even after an error |
| LinkedBuffer.StoppedWriteKeepsPrefix | Classes5/linked_buffer/mutex/linked_buffer.c:166-204 | unless a command clears it, the buffer after a write, also one that returns an error, holds the old string followed by the input up to where it stopped |
| LinkedBuffer.CommandIsXxxAmpersand | Classes5/linked_buffer/mutex/linked_buffer.c:180-184 | four bytes empty the buffer exactly if they are "xxx&" |
| LinkedBuffer.WriteIsTwoCase | Classes5/linked_buffer/mutex/linked_buffer.c:166-199 | what a write leaves when nothing goes wrong: no chunks if some aligned four bytes are the command, and else the list grown by exactly the chunking of the input |
| LinkedBuffer.WriteThenRead | Classes5/linked_buffer/mutex/linked_buffer.c:97-205 | after a write to an empty buffer a long enough read returns what was written, or nothing if an aligned clear command was in it |
| LinkedRcu.Fetch | Classes5/linked_buffer/rcu/linked_buffer.c:119-144 | one round of the loop: it leaves the loop at the end of the list, at a failed copy, or with the chunk that completes the read, and looks at no chunk it does not need |
| LinkedRcu.Traverse | Classes5/linked_buffer/rcu/linked_buffer.c:115-144 | with any chunks appended before any fetch, the loop ends with the list at the start followed by exactly what was appended before its fetches, and computes the flat read of that list, failing exactly if copying from a chunk inside that read fails |
| LinkedRcu.Read | Classes5/linked_buffer/rcu/linked_buffer.c:100-151 | so the call returns nothing beyond total_length, -EFAULT on a failed copy, and else a read of the list with what was appended before its fetches; if nothing is, of the list it started with |
| LinkedRcu.OverlappedReadIsContiguous | Classes5/linked_buffer/rcu/linked_buffer.c:115-150 | so it is one contiguous piece from f_pos, at least what was there at the start, and the cursor ends on a boundary |
| LinkedWriters.ShuffleWithoutLoss | Classes5/linked_buffer/mutex/linked_buffer.c:166-199 | the list is an interleaving whose projection on each call is the chunking of a prefix of its input, all of it if the call returned the full count |
| LinkedWriters.RunAppends | Classes5/linked_buffer/mutex/linked_buffer.c:191 | over any run the list only grows, and only at its end |
| LinkedWriters.CallAlone | Classes5/linked_buffer/mutex/linked_buffer.c:166-199 | a call that runs alone adds the chunking of the part of its input that it has written to the end of the list |
| LinkedWriters.OneAfterAnother | Classes5/linked_buffer/mutex/linked_buffer.c:166-199 | calls made one after the other, each to its full count, leave their chunkings one after the other |
| LinkedWriters.TotalNeverExceeds | Classes5/linked_buffer/mutex/linked_buffer.c:194 | with the addition split into load and store, total_length never exceeds the bytes in the list |
| LinkedWriters.TotalIsExact | Classes5/linked_buffer/mutex/linked_buffer.c:194 | every run in which all calls return leaves total_length equal to the bytes in the list if and only if at most one of the calls has anything to write |
| LinkedWriters.AdditionsMayBeLost | Classes5/linked_buffer/mutex/linked_buffer.c:166-199 | any two calls that both have something to write can lose exactly the first chunk of one of them although every call returns its full count and every byte is in the list |
| LinkedWriters.LossIsForGood | Classes5/linked_buffer/mutex/linked_buffer.c:194 | what is missing from total_length beyond what is pending stays missing, whatever the calls do next |
| LinkedWriters.TwoBytesCountAsOne | Classes5/linked_buffer/mutex/linked_buffer.c:194 | two calls of one byte each can leave two bytes in the list and a total of one |
| CircularBuffer.WriteIsWindow | Classes3/Circular/circular.c:62-73 | a write leaves in the ring the last bytes of what it held followed by what was written |
| CircularBuffer.WriteMovesPosition | Classes3/Circular/circular.c:69-70 | and the position has moved on by the number of bytes written, modulo buff_size - 1 |
| CircularBuffer.WritesConcatenate | Classes3/Circular/circular.c:62-73 | writing a and then b is writing a followed by b |
| CircularBuffer.WindowIsLastBytes | Classes3/Circular/circular.c:62-123 | over any writes and resizes, once buff_size - 1 bytes have been written since the last resize the ring holds exactly the last buff_size - 1 |
| CircularBuffer.Execute | Classes3/Circular/circular.c:62-123 | over any writes and resizes the position stays inside the ring and the last cell stays NUL |
| CircularBuffer.ResizeKeepsCells | Classes3/Circular/circular.c:113-121 | every cell that fits keeps its byte but for the new last one, further cells hold what the allocator left, and the position is reduced modulo the new size less one |
| CircularBuffer.ResizeToSameSize | Classes3/Circular/circular.c:113-121 | a resize to the size it has changes nothing |
| CircularBuffer.ReadAfterResize | Classes3/Circular/circular.c:75-121 | after a resize a read at 0 gives what it gave before, or as much of that as fits |
| CircularBuffer.ReadThenNothing | Classes3/Circular/circular.c:78-87 | a read takes the bytes up to the first NUL, moves the cursor by as many, and the next read finds nothing |
| CircularBuffer.WriteThenRead | Classes3/Circular/circular.c:62-88 | up to nine bytes other than NUL, written to a freshly loaded driver, are exactly what a read at 0 gives |
| CircularBuffer.ReadIsRotatedWindow | Classes3/Circular/circular.c:75-88 | a read of a ring without NULs returns all of it, turned to begin at the first cell |
| CircularBuffer.StaysWithinCount | Classes3/Circular/circular.c:75-88 | a read stays within the count it is asked for exactly if the cursor is at or beyond the end of the string or the whole string is no longer than the count |
| CircularBuffer.FullRingOverruns | Classes3/Circular/circular.c:75-88 | once the ring has been filled with other bytes than NUL since the last resize, a read at 0 copies more than it is asked for exactly if it is asked for less than buff_size - 1 |
| CircularBuffer.TwoBytesForOne | Classes3/Circular/circular.c:75-88 | on a freshly loaded driver, a write of two bytes and then a read of one copies two |
| CircularBuffer.Driver.constructor | Classes3/Circular/circular.c:40-50 | ten cells, all NUL |
| CircularBuffer.Driver.Write | Classes3/Circular/circular.c:62-73 | writes the input, or what comes before the first byte that cannot be copied |
| CircularBuffer.Driver.CopyCells | Classes3/Circular/circular.c:113-116 | the loop copies the cells that fit and leaves the others as the allocator left them |
| CircularBuffer.Driver.SetSize | Classes3/Circular/circular.c:108-122 | for sizes of at least 2: keeps the cells that fit, reduces the position modulo the new size less one, sets the sentinel, and keeps the string as far as it fits |
| CircularBuffer.Driver.Strlen | Classes3/Circular/circular.c:76 | the sentinel keeps strlen inside the array |
| CircularBuffer.Driver.Read | Classes3/Circular/circular.c:75-88 | all bytes up to the first NUL, or nothing if the cursor is beyond them, or the error exactly if there is something to copy and the copy fails; the cursor moves by the bytes copied, after which a read finds nothing; the count asked for is ignored, with the exact condition under which it is exceeded |

## Left out

- Output, `rand`, thread creation and joining: written values are inputs, threads are given.
- Cancellation of the critic and its cleanup handler (`Classes1/Task4.c:76-81`): the runs of the `Task4.c` model end with the critic asleep.
- Fairness: the retry loops of `Task3.c` and `Task5.c` may retry for ever under an unfair schedule, so what is proved is safety, the causes of failures, that single calls are short and that no deadlock stops them.
- The array of objects of `Task3.c` and `Task5.c`: the model is one object with any threads calling it in any order; different objects share nothing.
- The classes' methods are what a thread does between two points where others may come in, called when no lock blocks; blocking is in the state machines, not in the classes.
- Integer width: counts and indices are mathematical integers.
- LinkedWriters.ShuffleWithoutLoss: does not cover concurrent clearing, because `clean_list` runs without the lock; the clear command is in the sequential model only.
- A negative cursor in `linked_read`, and the semaphore and spinlock variants, which have the same loops around another lock.
- CircularBuffer.Driver.SetSize: does not cover sizes below 2, because size 1 makes `circular.c:120` reduce modulo 0 and size 0 makes `circular.c:121` write before the new array, so no result is defined, and negative ones fail to allocate.
- Allocation failures and number parsing in `circular_proc_write`; what the allocator leaves in new cells is an arbitrary input.
- `simple_module.c`, the system-call and `/proc` exercises, module set-up and the drivers of tests.
