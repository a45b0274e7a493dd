# Verified models of the pthreads pipeline and of the NachOS kernel, file system and machine

This project models the parts of the repository whose correctness nobody can see by reading one
function, and proves what they are for. Simulated integers, bit operations, rounding and wrap-around are
written out where they matter; counters that only count are unbounded.

## What is modelled

**The pipeline of NTHU-OS-Pthreads** (`options.dfy`, `histories.dfy`, `ts_queue.dfy`, `pipeline*.dfy`). The ring buffer is a class over an
array, verified against a sequence. Around it stands a machine whose state is the program counter of every
thread, the contents and the mutex owner of the three queues, the waiters, and the controller's vector; a step is
one stretch of code that no other thread can see half done (`Pipeline.WorkStep`, `Pipeline.ControlStep`).
Condition variables are Mesa style, are signalled after the mutex has been released and may wake up spuriously;
cancellation is deferred (IEEE Std 1003.1-2017, XSH section 2.9.5) and acts only where the code leaves it
enabled. The two transforms are arbitrary functions. The proofs give mutual exclusion, no lost wakeup, first in, first
out for each queue, exactly-once processing, deadlock freedom, a bound on the threads' steps over any run, and the rule
by which the controller starts and cancels consumers. One result is negative: the controller starts its first
consumer only when it sees more than 160 items in the worker queue, so a job of 1 to 160 lines never gets a consumer
and hangs. The project proves that this is exactly when the pipeline can hang, and that every other job can always be
finished.

**The file system of NachOS** (`words.dfy`, `disk_geometry.dfy`, `disk_bytes.dfy`, `bitmap.dfy`, `file_header.dfy`,
`open_file.dfy`, `directory.dfy`, `file_system_state.dfy`, `file_system_capacity.dfy`, `file_system.dfy`,
`file_system_runs.dfy`). Classes with the fields of the source over a
disk of 1024 sectors of 128 bytes. The free map and the directory are stored in files, byte by byte, as the
source stores them. The invariant says that every sector of the disk is used exactly once if it is marked and not at all
if it is not, counting the two header sectors, the two system files, and the header and data of each live file.
On top of it the disk is shown to be a map from names (their first 9 characters) to byte strings, over every run of
creating, removing and writing; the map alone settles whether a file can be created; and the two clients `Copy` and `Print` of main.cc are verified end to end.

**The kernel's concurrency and simulated time** (`semaphore.dfy`, `semaphore_history.dfy`, `synch_list.dfy`,
`synch_list_steps.dfy`, `synch_list_append.dfy`, `synch_list_progress.dfy`, `synch_disk.dfy`, `synch_disk_progress.dfy`,
`interrupt.dfy`, `interrupt_history.dfy`, `list.dfy`, `threads.dfy`, `thread_history.dfy`). Code that runs with interrupts off is one step; threads and
interrupt handlers interleave between the steps in any way, so a thread may get through a semaphore before the one
that was woken for it. Locks and conditions are built from semaphores as in synch.cc, and the step at which lockHolder is
set is a step of its own. Interrupt handlers are arbitrary functions that may schedule further interrupts. What each
machine does is also told as histories: the calls that were made, the items and threads that went into each queue
and those that came out, read off the steps and not off the queues.

**Arithmetic of the simulated machine and disk** (`mult.dfy`, `unaligned.dfy`, `disk_latency.dfy`): the shift-and-add multiplication,
unaligned loads and stores through a page table with delayed loads, and the timing of the disk with its track
buffer.

**The growing hash table** (`hash_table.dfy`, `bucket_array.dfy`, with `list.dfy` and `sums.dfy`): an array of pointer-linked
lists, refined in two steps: linked lists to a sequence of sequences, and that to a finite map.

Many invariants here are accounts: a sum over all threads, owners or lists that comes out as 1 or 0. `sums.dfy` holds
the few lemmas about such sums, `histories.dfy` those about what goes into a queue and what comes out.

## What was found

- The pipeline hangs on jobs of 1 to 160 lines (`PipelineTermination.HangsExactlyOnShortJobs`).
- `WriteAt` puts whatever its fresh buffer held behind the end of the file when it rewrites the last sector of a file
  whose length is no multiple of 128 (`OpenFiles.TailKeptExactly`, `OpenFiles.TailLostOnce`); the bytes of the file
  itself are right (`OpenFiles.OpenFile.WriteAt`).
- A register stored with SWR and SWL while a load for it is in flight is not stored as it was: the load lands between
  the two stores (`UnalignedAccess.Machine.StoresRegisterExactly`, `UnalignedAccess.StoreInLoadDelay`).
- The ASSERT in List::Append can fail on a synchronized list: the calls that make it possible are exactly those of
  `SynchListAppends.NextCallFailsExactly`. An item that is still on the list may be appended again if a consumer that is
  through the lock is about to take it.
- The comment in directory.h assumes names of at most 9 characters; longer names work, but the directory knows them by
  their first 9 characters only (`Directories.FindIsLookup`).

## Model

| member | source | states |
|---|---|---|
| TsQueues.TSQueue.constructor | NTHU-OS-Pthreads/ts_queue.hpp:52-59 | a new ring buffer of the given size is empty |
| TsQueues.TSQueue.Enqueue | NTHU-OS-Pthreads/ts_queue.hpp:71-82 | a full queue makes the caller wait and is unchanged; otherwise what was in the queue is followed by the item |
| TsQueues.TSQueue.Dequeue | NTHU-OS-Pthreads/ts_queue.hpp:85-97 | an empty queue makes the caller wait; otherwise what was in the queue is the item taken, followed by what is left |
| TsQueues.TSQueue.GetSize | NTHU-OS-Pthreads/ts_queue.hpp:100-106 | the number of items between head and tail |
| TsQueues.NextSlot | NTHU-OS-Pthreads/ts_queue.hpp:78-78 | the modulo step of both indices is the step to the next slot of the ring |
| PipelineSteps.StepInv | NTHU-OS-Pthreads/consumer_controller.hpp:78-102 | every step of a thread or of the controller, every pending cancel and every spurious wakeup keeps mutex ownership, the controller's vector, the loop counts, the wakeup accounts and the item account |
| PipelineSteps.ReachableInv | NTHU-OS-Pthreads/main.cpp:26-55 | these hold in every state any run of any job can reach |
| PipelineHistory.FirstInFirstOut | NTHU-OS-Pthreads/ts_queue.hpp:71-97 | over every run, for each queue, the items that threads have put in are, in order, those that threads have taken out and then those still there |
| PipelineHistory.SectionDecides | NTHU-OS-Pthreads/ts_queue.hpp:73-94 | in its critical section a thread puts its item in just when fewer than 200 (for the writer's queue 4000) are there, takes the first one just when there is one, and otherwise waits; the mutex is free afterwards |
| PipelineHistory.LinesInOrder | NTHU-OS-Pthreads/reader.hpp:48-52 | over every run lines go into the reader's queue in the order of the file, and are written in the order in which they were put into the writer's queue |
| PipelineController.SizeIsRead | NTHU-OS-Pthreads/consumer_controller.hpp:78-83 | the controller reads the worker queue's size while it owns its mutex, changes nothing else, and is done with a join when that consumer is gone |
| PipelineController.StartsExactly | NTHU-OS-Pthreads/consumer_controller.hpp:86-91 | the vector gets longer if and only if the size read is over 160, by one new consumer at its end |
| PipelineController.CancelsExactly | NTHU-OS-Pthreads/consumer_controller.hpp:93-98 | the vector gets shorter if and only if the size read is under 40 and there is more than one consumer; then the last one comes off, it and no other thread is cancelled, and the controller waits for it |
| PipelineController.OtherwiseSleeps | NTHU-OS-Pthreads/consumer_controller.hpp:86-100 | in every other case nothing changes |
| PipelineController.StartedLast | NTHU-OS-Pthreads/consumer_controller.hpp:94-95 | in every reachable state the last consumer in the vector is the one started last |
| PipelineController.ActsOnReadings | NTHU-OS-Pthreads/consumer_controller.hpp:83-93 | over every run each size read is acted upon, once and in order |
| PipelineController.ConsumersCounted | NTHU-OS-Pthreads/consumer_controller.hpp:86-99 | over every run the number of consumers is what the sizes acted upon make of it: one more for each over 160, one less for each under 40 unless only one is left |
| PipelineController.LowReadingsLeaveOne | NTHU-OS-Pthreads/consumer_controller.hpp:93-95 | n readings under 40 in a row take n consumers off the vector, or leave exactly one |
| PipelineController.CancelledTakesOneAtMost | NTHU-OS-Pthreads/consumer.hpp:57-70 | over every run a consumer stays cancelled, and takes at most one more item after it has been cancelled, none if it is past the dequeue of its last round |
| PipelineController.CancelsAndWakeups | NTHU-OS-Pthreads/consumer.hpp:55-69 | a pending cancel ends a consumer just at its loop test; a spurious wakeup sends a waiting thread back to the mutex with what it carries |
| PipelineProgress.MutualExclusion | NTHU-OS-Pthreads/ts_queue.hpp:71-106 | no two threads, nor a thread and the controller, are in the critical sections of one queue |
| PipelineProgress.PartOfExpected | NTHU-OS-Pthreads/consumer.hpp:57-70 | whatever sits in a queue or in the output is, after the transforms it still has to go through, part of the expected lines, counted with multiplicity |
| PipelineProgress.WrittenExactlyOnce | NTHU-OS-Pthreads/writer.hpp:56-62 | in every reachable state the output is contained, with multiplicity, in the input mapped through the producer's and then the consumer's transform; when the writer is done it is all of it |
| PipelineProgress.ScalingDownDropsNothing | NTHU-OS-Pthreads/consumer_controller.hpp:93-99 | only cancelled consumers that have left the vector are ever gone, and the account of all items is complete although they are gone; when and which consumers are cancelled is `PipelineController.CancelsExactly` |
| PipelineProgress.QuietWaitsRightly | NTHU-OS-Pthreads/ts_queue.hpp:74-76 | no wakeup is lost: when nobody can move, a thread waiting to enqueue faces a full queue and a thread waiting to dequeue an empty one |
| PipelineProgress.QuietMeansFinished | NTHU-OS-Pthreads/consumer.hpp:57-70 | with a consumer still there, a state where no thread can move is one where the writer is done and every line is written |
| PipelineProgress.DeadlockFree | NTHU-OS-Pthreads/ts_queue.hpp:71-97 | while lines are missing and a consumer is not gone, some reader, producer, consumer or writer step is enabled, unless the controller holds the worker queue's mutex for its size |
| PipelineProgress.ConsumersLast | NTHU-OS-Pthreads/consumer_controller.hpp:93-93 | once a consumer has been started, one that is neither cancelled nor gone exists for ever |
| PipelineTermination.WorkShrinks | NTHU-OS-Pthreads/producer.hpp:44-53 | each step of a reader, producer, consumer or writer makes a measure of the remaining work smaller, signals and re-waits included |
| PipelineTermination.ThreadsFinish | NTHU-OS-Pthreads/writer.hpp:56-63 | with consumers about, in any run, whatever the controller does, the threads make a bounded number of steps, and where they cannot go on every line has been written exactly once |
| PipelineTermination.RunBounded | NTHU-OS-Pthreads/consumer_controller.hpp:78-102 | over any run the threads make no more steps than the work left at the start, two more for each spurious wakeup and four more for each consumer started |
| PipelineTermination.ShortJobsGetNoConsumer | NTHU-OS-Pthreads/consumer_controller.hpp:86-91 | a job of at most 160 lines never gets a consumer, and nothing is ever written |
| PipelineTermination.HangsExactlyOnShortJobs | NTHU-OS-Pthreads/consumer_controller.hpp:83-100 | a state where lines are missing, no thread can move and the controller sees no reason to act is reachable if and only if the job has between 1 and 160 lines |
| PipelineTermination.LongJobsFinish | NTHU-OS-Pthreads/consumer_controller.hpp:78-102 | from every reachable state of an empty job or of one of more than 160 lines, some run finishes it |
| PipelineTermination.FinishesExactlyOnLongJobs | NTHU-OS-Pthreads/main.cpp:34-55 | finishing stays possible in every reachable state if and only if the job is empty or has more than 160 lines |
| DiskBytes.IntsRoundTrip | NachOS-4.0_MP1/code/filesys/filehdr.cc:79-92 | 32-bit signed ints written to a sector as bytes and read back are the same, negative ones included |
| DiskBytes.LeastSignificantFirst | NachOS-4.0_MP1/code/filesys/filehdr.cc:90-92 | the k-th int is the value of the four bytes from 4k on, least significant first, in two's complement |
| DiskBytes.WordsRoundTrip | NachOS-4.0_MP1/code/filesys/pbitmap.cc:60-73 | bitmap words written to a file as bytes and read back are the same |
| Bitmaps.Bitmap.constructor | NachOS-4.0_MP1/code/lib/bitmap.cc:22-36 | all bits clear, in as many words as needed |
| Bitmaps.Bitmap.Mark | NachOS-4.0_MP1/code/lib/bitmap.cc:54-60 | sets that bit of the sequence the words stand for and no other; the ASSERT at the end holds |
| Bitmaps.Bitmap.Clear | NachOS-4.0_MP1/code/lib/bitmap.cc:69-75 | clears that bit and no other; the ASSERT at the end holds |
| Bitmaps.Bitmap.Test | NachOS-4.0_MP1/code/lib/bitmap.cc:84-92 | reads that bit |
| Bitmaps.Bitmap.FindAndSet | NachOS-4.0_MP1/code/lib/bitmap.cc:103-111 | finds and sets the lowest clear bit; -1 and no change just when all bits are set |
| Bitmaps.Bitmap.CountClear | NachOS-4.0_MP1/code/lib/bitmap.cc:119-128 | NumClear: the number of clear bits |
| Bitmaps.BitsUpdate | NachOS-4.0_MP1/code/lib/bitmap.cc:54-75 | changing one bit of one 32-bit word changes exactly that bit of the whole sequence |
| Bitmaps.NumClearPositive | NachOS-4.0_MP1/code/lib/bitmap.cc:103-128 | NumClear is zero just when FindAndSet finds nothing |
| FileHeaders.SynchDisk.ReadSector | NachOS-4.0_MP1/code/filesys/synchdisk.cc:55-60 | as its callers see it: the sector is copied into the buffer and nothing else changes |
| FileHeaders.SynchDisk.WriteSector | NachOS-4.0_MP1/code/filesys/synchdisk.cc:71-76 | as its callers see it: that sector of the disk becomes the buffer |
| FileHeaders.HeaderRoundTrip | NachOS-4.0_MP1/code/filesys/filehdr.cc:79-92 | a header written to its sector and read back is the same |
| FileHeaders.HeaderLayout | NachOS-4.0_MP1/code/filesys/filehdr.h:60-63 | where the length in bytes, the length in sectors and each sector number stand in the header's sector |
| FileHeaders.FirstFitDistinct | NachOS-4.0_MP1/code/filesys/filehdr.cc:49-54 | the sectors the loop finds are all different |
| FileHeaders.FirstFitLowest | NachOS-4.0_MP1/code/lib/bitmap.cc:103-111 | every clear sector below one that is taken is taken before it |
| FileHeaders.FirstFitCount | NachOS-4.0_MP1/code/filesys/filehdr.cc:46-54 | taking n sectors leaves n fewer clear bits |
| FileHeaders.FileHeader.Allocate | NachOS-4.0_MP1/code/filesys/filehdr.cc:43-56 | succeeds just when there are enough clear sectors, and then takes the lowest ones, in order, in range and all different, and marks exactly these; every clear sector below one taken was taken before it; otherwise the bitmap is unchanged |
| FileHeaders.FileHeader.TakeSectors | NachOS-4.0_MP1/code/filesys/filehdr.cc:49-54 | the loop takes the lowest clear sectors one after the other; FindAndSet never fails in it |
| FileHeaders.FileHeader.Deallocate | NachOS-4.0_MP1/code/filesys/filehdr.cc:65-70 | clears exactly the file's data sectors; the ASSERT that each is marked holds |
| FileHeaders.FileHeader.FetchFrom | NachOS-4.0_MP1/code/filesys/filehdr.cc:79-81 | the header is what the sector's bytes say |
| FileHeaders.FileHeader.WriteBack | NachOS-4.0_MP1/code/filesys/filehdr.cc:90-92 | the sector's bytes are the header's, and no other sector changes |
| FileHeaders.FileHeader.ByteToSector | NachOS-4.0_MP1/code/filesys/filehdr.cc:104-106 | the data sector that holds the byte at that offset |
| OpenFiles.FileFrame | NachOS-4.0_MP1/code/filesys/openfile.cc:108-133 | a file's contents depend on its own data sectors only |
| OpenFiles.ByteOfFile | NachOS-4.0_MP1/code/filesys/filehdr.cc:104-106 | byte b of a file is in data sector b / 128, at b % 128 |
| OpenFiles.OpenFile.constructor | NachOS-4.0_MP1/code/filesys/openfile.cc:30-34 | opening reads the header from its sector; the position is 0 |
| OpenFiles.OpenFile.ReadAt | NachOS-4.0_MP1/code/filesys/openfile.cc:108-133 | returns the number of bytes there are, at most numBytes, and puts exactly that slice of the file into the buffer, for any position and length, aligned or not |
| OpenFiles.OpenFile.WriteAt | NachOS-4.0_MP1/code/filesys/openfile.cc:135-172 | replaces exactly the bytes from position on, as many as fit, keeps every other byte of the file, and writes no sector that is not the file's data; what the data sectors hold behind the end of the file is the old bytes or those of the fresh buffer, as `Rewritten` says |
| OpenFiles.TailKeptExactly | NachOS-4.0_MP1/code/filesys/openfile.cc:147-170 | the bytes behind the end of the file survive a write, whatever the fresh buffer held, if and only if nothing is written, the length is a multiple of 128, or the write does not reach the last sector |
| OpenFiles.TailLostOnce | NachOS-4.0_MP1/code/filesys/openfile.cc:147-170 | an input where they do not: one byte written into a file of one byte |
| OpenFiles.OpenFile.WriteInside | NachOS-4.0_MP1/code/filesys/openfile.cc:144-170 | the data sectors after a write that fits, byte by byte, the unused end of the last one included |
| OpenFiles.OpenFile.Compose | NachOS-4.0_MP1/code/filesys/openfile.cc:151-164 | the buffer to be written back holds the new bytes and, around them, what the file had there |
| OpenFiles.OpenFile.WriteSectors | NachOS-4.0_MP1/code/filesys/openfile.cc:166-169 | the buffer's sectors go to the file's data sectors, in order, and to no others |
| OpenFiles.OpenFile.Read | NachOS-4.0_MP1/code/filesys/openfile.cc:70-74 | reads on from the current position and moves it by what was read |
| OpenFiles.OpenFile.Write | NachOS-4.0_MP1/code/filesys/openfile.cc:76-80 | writes on from the current position and moves it by what was written |
| OpenFiles.ChunkedRead | NachOS-4.0_MP1/code/filesys/openfile.cc:70-74 | reading in chunks of any sizes reads what one big read does and ends at the same position |
| OpenFiles.ChunkedWrite | NachOS-4.0_MP1/code/filesys/openfile.cc:76-80 | writing in chunks, however cut, leaves the file and the position that one big write does |
| OpenFiles.ReadBack | NachOS-4.0_MP1/code/filesys/openfile.cc:70-80 | what was written can be read back from where the writing began |
| Directories.SameUpToPrefix | NachOS-4.0_MP1/code/filesys/directory.cc:86-86 | strncmp over 9 characters compares the names' first 9 characters |
| Directories.PaddedPrefix | NachOS-4.0_MP1/code/filesys/directory.cc:126-126 | what strncpy over 9 characters stores has the name's first 9 characters |
| Directories.PaddedAt | NachOS-4.0_MP1/code/filesys/directory.cc:126-126 | what strncpy stores is the string up to its end and then NULs only |
| Directories.EntryLayout | NachOS-4.0_MP1/code/filesys/directory.h:32-39 | where the flag, the sector and the name stand in the 20 bytes of an entry |
| Directories.TableRoundTrip | NachOS-4.0_MP1/code/filesys/directory.cc:61-74 | a table written to its file and read back is the same, entry by entry |
| Directories.FindIsLookup | NachOS-4.0_MP1/code/filesys/directory.cc:84-106 | looking a name up in the table is looking its first 9 characters up in a map |
| Directories.AddNames | NachOS-4.0_MP1/code/filesys/directory.cc:123-129 | the entry Add fills adds that key to the map, and names stay distinct |
| Directories.RemoveNames | NachOS-4.0_MP1/code/filesys/directory.cc:141-148 | the entry Remove frees takes that key out of the map and no other |
| Directories.Directory.FindIndex | NachOS-4.0_MP1/code/filesys/directory.cc:84-89 | the first entry in use with that name, -1 if there is none |
| Directories.Directory.Find | NachOS-4.0_MP1/code/filesys/directory.cc:100-106 | the header sector of the entry found, or -1 |
| Directories.Directory.Add | NachOS-4.0_MP1/code/filesys/directory.cc:119-131 | succeeds just when the name is not there and an entry is free; then that first free entry is filled and no other is touched; otherwise the table is unchanged |
| Directories.Directory.Remove | NachOS-4.0_MP1/code/filesys/directory.cc:141-148 | succeeds just when the name is there, and frees its entry only |
| Directories.Directory.FetchFrom | NachOS-4.0_MP1/code/filesys/directory.cc:61-63 | the table is what the file's bytes say |
| Directories.Directory.WriteBack | NachOS-4.0_MP1/code/filesys/directory.cc:72-74 | the file's bytes are the table's, and nothing outside the file's data sectors changes |
| Directories.FetchBitmap | NachOS-4.0_MP1/code/filesys/pbitmap.cc:38-43 | the bitmap's words are what the file's bytes say |
| Directories.WriteBitmap | NachOS-4.0_MP1/code/filesys/pbitmap.cc:71-73 | the file's bytes are the bitmap's words, and nothing outside the file's data sectors changes |
| FileSystemStates.NothingShared | NachOS-4.0_MP1/code/filesys/filesys.cc:174-281 | what the account of sectors means: owners share no sector, none owns one twice, and what is owned is exactly what is marked |
| FileSystemStates.Grow | NachOS-4.0_MP1/code/filesys/filesys.cc:186-201 | a slot that owned nothing may take sectors that were clear, each once |
| FileSystemStates.Shrink | NachOS-4.0_MP1/code/filesys/filesys.cc:269-276 | a slot that gives up all it owned leaves every other owner's sectors marked |
| FileSystemStates.CreateKeepsInv | NachOS-4.0_MP1/code/filesys/filesys.cc:174-212 | creating a file keeps the whole invariant of the disk |
| FileSystemStates.CreateAddsFile | NachOS-4.0_MP1/code/filesys/filesys.cc:174-212 | users see one new file of the size asked for under a key that was not there, and every other file byte for byte as it was |
| FileSystemStates.RemoveKeepsInv | NachOS-4.0_MP1/code/filesys/filesys.cc:253-281 | removing a file keeps the invariant: no sector leaks or is shared |
| FileSystemStates.RemoveDropsFile | NachOS-4.0_MP1/code/filesys/filesys.cc:253-281 | users see that file gone and every other one as it was |
| FileSystemStates.WriteKeepsInv | NachOS-4.0_MP1/code/filesys/openfile.cc:135-172 | writing to a live file changes neither the directory nor the free map nor any other file |
| FileSystemStates.WriteChangesFile | NachOS-4.0_MP1/code/filesys/openfile.cc:135-172 | users see exactly the written bytes replaced in that file, and every other file as it was |
| FileSystemStates.CreateThenRemove | NachOS-4.0_MP1/code/filesys/filesys.cc:174-281 | removing a file just created restores names, contents and free sectors |
| FileSystemStates.FormattedInv | NachOS-4.0_MP1/code/filesys/filesys.cc:83-118 | a formatted disk satisfies the invariant and holds no file |
| FileSystems.Flushed | NachOS-4.0_MP1/code/filesys/filesys.cc:117-118 | when both system files have been rewritten the disk holds just the new bitmap and the new table |
| FileSystems.FileSystem.Format | NachOS-4.0_MP1/code/filesys/filesys.cc:82-136 | formats any disk whatever was on it: both ASSERTs hold, no file exists, and 1019 sectors are clear |
| FileSystems.FileSystem.Reopen | NachOS-4.0_MP1/code/filesys/filesys.cc:137-142 | a disk left by any run opens again with the same contents |
| FileSystems.FileSystem.Create | NachOS-4.0_MP1/code/filesys/filesys.cc:174-212 | succeeds just when the name is new, an entry is free and there is a sector for the header and enough for the data; then header, directory and free map are on disk as they should be; a failure leaves the disk unchanged |
| FileSystems.FileSystem.StoreNew | NachOS-4.0_MP1/code/filesys/filesys.cc:201-205 | the three writes that flush a new file bring the disk from one state of the invariant to the next |
| FileSystems.FileSystem.Open | NachOS-4.0_MP1/code/filesys/filesys.cc:225-237 | opens the file of that name with its header; NULL just when there is none |
| FileSystems.FileSystem.Remove | NachOS-4.0_MP1/code/filesys/filesys.cc:253-281 | succeeds just when the name is there, and then frees its entry, its header sector and its data sectors; a failure leaves the disk unchanged |
| FileSystemCapacity.ClearAndOwned | NachOS-4.0_MP1/code/filesys/filehdr.cc:46-47 | the clear bits are as many as the sectors nobody owns |
| FileSystemCapacity.ClearSectors | NachOS-4.0_MP1/code/filesys/filesys.cc:82-135 | clear sectors and the sectors that the files need always make 1019 |
| FileSystemCapacity.CanCreateExactly | NachOS-4.0_MP1/code/filesys/filesys.cc:182-200 | Create succeeds if and only if the name is new, there are fewer than 10 files, and the sectors for all of them and for the new one are at most 1019 |
| FileSystemRuns.StepKeepsInv | NachOS-4.0_MP1/code/filesys/filesys.cc:174-281 | each operation keeps the invariant and does to the map of files what it should; the map alone settles whether it can be done |
| FileSystemRuns.RunRefinesMap | NachOS-4.0_MP1/code/filesys/filesys.cc:82-281 | over any run of creating, removing and writing every sector stays accounted for and the disk refines a map from names to contents, in which a file is created just when its name, the number of files and their sizes allow it |
| FileSystemRuns.WriteOpened | NachOS-4.0_MP1/code/filesys/openfile.cc:76-80 | writing on through a file opened by name changes the map of files at that name only |
| FileSystemRuns.Copy | NachOS-4.0_MP1/code/threads/main.cc:78-115 | if the file can be created, afterwards it holds exactly the UNIX file's bytes and every other file is as it was; otherwise the disk is unchanged; the ASSERT that it can be opened holds |
| FileSystemRuns.CopyChunks | NachOS-4.0_MP1/code/threads/main.cc:106-109 | the loop over chunks of 128 bytes writes the whole contents |
| FileSystemRuns.Print | NachOS-4.0_MP1/code/threads/main.cc:124-142 | prints exactly the bytes of the file, if there is one |
| Semaphores.Semaphore.P | NachOS-4.0_MP1/code/threads/synch.cc:74-90 | one pass of the loop: through and one less if the value is positive, otherwise asleep at the end of the queue and the value still 0 |
| Semaphores.Semaphore.V | NachOS-4.0_MP1/code/threads/synch.cc:100-114 | the thread asleep longest, if any, is made ready, and the value is one more in any case |
| Semaphores.TestSleeps | NachOS-4.0_MP1/code/threads/synch.cc:83-86 | a thread that goes to sleep was not on the queue, and the queue still holds the sleepers, each once |
| Semaphores.GiveWakes | NachOS-4.0_MP1/code/threads/synch.cc:107-110 | waking the first sleeper keeps the queue exact and the value covered by woken threads |
| Semaphores.OneHolder | NachOS-4.0_MP1/code/threads/synch.cc:173-193 | a lock has at most one holder, and while it has one its semaphore is 0 |
| SemaphoreRuns.SemaphoreCounts | NachOS-4.0_MP1/code/threads/synch.cc:74-114 | over every run of any number of threads and handlers the value is what it was, plus completed V's, minus completed P's; the queue holds just the sleepers, each once; while anyone sleeps the value is at most the number of woken threads that have not tested again |
| SemaphoreRuns.NobodyStranded | NachOS-4.0_MP1/code/threads/synch.cc:83-87 | no wakeup is lost: while the value is positive and someone sleeps, a woken thread exists whose next test completes its P |
| SemaphoreHistory.CallsAccountedFor | NachOS-4.0_MP1/code/threads/synch.cc:74-114 | over every run each call of P is completed or in progress and each call of V is completed; threads test the value at most once for each call of P or V |
| SemaphoreHistory.WokenInTurn | NachOS-4.0_MP1/code/threads/synch.cc:83-109 | a thread that goes to sleep behind k others sleeps on through the next k calls of V, whatever else happens, and the call after these wakes it |
| SynchListSteps.StepInv | NachOS-4.0_MP1/code/threads/synchlist.cc:51-76 | every step of Append, RemoveFront, Wait, Signal, Acquire and Release by any thread keeps the lock, the holder, the waiters' accounts and the order of items |
| SynchListSteps.ReachableInv | NachOS-4.0_MP1/code/threads/synchlist.cc:51-76 | these hold in every state that any number of threads can reach |
| SynchListSteps.FirstInFirstOut | NachOS-4.0_MP1/code/threads/synchlist.cc:51-76 | the items removed are a prefix of the items appended, in the order of the critical sections, and the rest is on the list |
| SynchListSteps.AssertionsHold | NachOS-4.0_MP1/code/threads/synch.cc:190-264 | RemoveFront never meets an empty list; the ASSERTs that the current thread holds the lock never fail in Release, Wait and Signal; no thread joins a queue it is on |
| SynchListSteps.MutualExclusion | NachOS-4.0_MP1/code/threads/synch.cc:173-193 | at most one thread is between getting through the lock and giving it back |
| SynchListSteps.ItemsAreSpokenFor | NachOS-4.0_MP1/code/threads/synch.cc:232-269 | while the lock is free and consumers sit in the condition's queue, the list is no longer than the number of consumers that were signalled and are not back in the lock |
| SynchListSteps.QuietMeansEmpty | NachOS-4.0_MP1/code/threads/synchlist.cc:67-76 | if nobody can go on, the lock is free, and whoever is in a call is a consumer asleep in the condition's queue while the list is empty |
| SynchListProgress.CallsAccountedFor | NachOS-4.0_MP1/code/threads/synchlist.cc:51-76 | over every run in which no ASSERT has failed, every call of Append has appended its item once or has still to do so, every call of RemoveFront has removed one item or has still to do so, and the threads make at most 18 steps for each call of Append and 8 for each of RemoveFront |
| SynchListProgress.QuietMeansServed | NachOS-4.0_MP1/code/threads/synchlist.cc:51-76 | where no thread can go on, every item has been appended as often as it was brought, and as many items have been removed as there were calls for, or as there were items |
| SynchListProgress.SignalledInTurn | NachOS-4.0_MP1/code/threads/synch.cc:238-267 | over every run consumers are signalled in the order in which they began to wait |
| SynchListAppends.TidyStep | NachOS-4.0_MP1/code/lib/list.cc:73-73 | a call of Append that is all right, and every step of every thread, keeps the items on the list and those being appended different, but for an item on its way out |
| SynchListAppends.AppendAssertionHolds | NachOS-4.0_MP1/code/lib/list.cc:73-73 | if at each call of Append nobody else is appending the item, and it is not on the list or only on its way out, the ASSERT in List::Append that it is not on the list never fails; an item may come back after it was removed, as in SelfTest |
| SynchListAppends.GetsIn | NachOS-4.0_MP1/code/threads/synchlist.cc:51-59 | an item on the list to stay: a thread that appends it again can get through the lock with the item still there |
| SynchListAppends.BothComeIn | NachOS-4.0_MP1/code/threads/synchlist.cc:51-59 | two threads append the same item: there is a run in which the second finds it on the list |
| SynchListAppends.NextCallFailsExactly | NachOS-4.0_MP1/code/lib/list.cc:73-73 | after a run of such calls, the next call has a run, without any further call, in which the ASSERT fails, if and only if that call is not of this kind |
| SynchDisks.StepInv | NachOS-4.0_MP1/code/filesys/synchdisk.cc:55-86 | every step of any thread and every disk interrupt keeps lock, semaphore, requests and the disk's active flag in agreement |
| SynchDisks.AssertionsHold | NachOS-4.0_MP1/code/machine/disk.cc:113-131 | the disk never gets a request while it is active, and the lock is only released by its holder |
| SynchDisks.ActiveMeansPending | NachOS-4.0_MP1/code/machine/disk.cc:110-154 | the disk is active just while exactly one disk interrupt is scheduled, and the completion semaphore never exceeds 1 |
| SynchDisks.OwnRequestCompleted | NachOS-4.0_MP1/code/filesys/synchdisk.cc:55-76 | ReadSector and WriteSector return only after their own request is completed |
| SynchDisks.QuietMeansDone | NachOS-4.0_MP1/code/filesys/synchdisk.cc:55-86 | if no thread can go on and no interrupt is scheduled, every call has returned |
| SynchDiskProgress.CallsReturn | NachOS-4.0_MP1/code/filesys/synchdisk.cc:55-86 | over every run each call has made its one request or is on its way to it, and 9 steps and interrupts for each call are enough; where nothing can go on, every call has returned and as many requests as calls are completed |
| Interrupts.FireShrinks | NachOS-4.0_MP1/code/machine/interrupt.cc:343-349 | each handler call leaves one due interrupt fewer, whatever the handler schedules |
| Interrupts.InsertIsSortedInsert | NachOS-4.0_MP1/code/machine/interrupt.cc:57-66 | the pending list is the sorted list of list.cc under PendingCompare |
| Interrupts.EventKeeps | NachOS-4.0_MP1/code/machine/interrupt.cc:145-352 | ticks, idling, scheduling and yielding keep order, completeness, punctuality and the sum of ticks; between them nothing due is pending; time does not go back |
| Interrupts.FiredInOrderAndOnTime | NachOS-4.0_MP1/code/machine/interrupt.cc:289-352 | over every run interrupts fire in order of time and, at equal times, of scheduling, never early and at most SystemTick - 1 late |
| Interrupts.FiredOrPending | NachOS-4.0_MP1/code/machine/interrupt.cc:289-352 | over every run each scheduled interrupt has fired once or is pending once, and what is pending is due in the future |
| Interrupts.TimeIsConserved | NachOS-4.0_MP1/code/machine/interrupt.cc:145-163 | totalTicks is idleTicks + systemTicks + userTicks at all times and never decreases |
| Interrupts.TickExact | NachOS-4.0_MP1/code/machine/interrupt.cc:145-172 | what one tick adds to each counter, and just when a yield is wanted after it |
| Interrupts.IdleExact | NachOS-4.0_MP1/code/machine/interrupt.cc:201-336 | to which time idling goes, what it adds to each counter, and just when a yield is wanted after it |
| InterruptHistory.DueWhenCalledFor | NachOS-4.0_MP1/code/machine/interrupt.cc:289-352 | over every run the interrupt of the n-th call of Schedule, by a device or by a handler, is pending at the time of the call plus the delay asked for, in the future, or has fired then or at most 9 ticks later |
| InterruptHistory.TicksCounted | NachOS-4.0_MP1/code/machine/interrupt.cc:145-163 | over every run the system ticks are 10 for each tick in system mode and the user ticks 1 for each other one, whatever is idled, scheduled and handled |
| Interrupts.Interrupt.Schedule | NachOS-4.0_MP1/code/machine/interrupt.cc:289-297 | adds exactly one interrupt, due at totalTicks + fromNow and with the next serial number, behind those due no later; nothing else changes |
| Interrupts.Interrupt.CheckIfDue | NachOS-4.0_MP1/code/machine/interrupt.cc:311-352 | terminates; calls the handlers of all that is due, also of what becomes due by advancing the clock; true just when it called one; leaves nothing due |
| Interrupts.Interrupt.OneTick | NachOS-4.0_MP1/code/machine/interrupt.cc:145-172 | advances the clock and the right counter by 10 in system mode and by 1 in user mode, handles what is due, turns interrupts on again and says whether to yield: just if that was wanted before or a handler called on the way has asked for it |
| Interrupts.Interrupt.SetLevel | NachOS-4.0_MP1/code/machine/interrupt.cc:122-134 | time moves on just when interrupts go from off to on, and then the thread is to yield just when a handler asked for it |
| Interrupts.Interrupt.Idle | NachOS-4.0_MP1/code/machine/interrupt.cc:201-222 | jumps to the time of the next pending interrupt, no further, counts that as idle time, and handles what is due; false, and the machine halts with nothing changed, just when there is none |
| Lists.List.Append | NachOS-4.0_MP1/code/lib/list.cc:70-83 | the item is at the end |
| Lists.List.Prepend | NachOS-4.0_MP1/code/lib/list.cc:91-104 | the item is at the front |
| Lists.List.RemoveFront | NachOS-4.0_MP1/code/lib/list.cc:116-132 | the first item comes out and the others stay in order |
| Lists.List.Remove | NachOS-4.0_MP1/code/lib/list.cc:140-166 | exactly that item is taken out, first, last or in between |
| Lists.List.IsInList | NachOS-4.0_MP1/code/lib/list.cc:174-183 | whether the item is among the contents |
| Lists.List.Insert | NachOS-4.0_MP1/code/lib/list.cc:215-240 | SortedList::Insert: the item is in front of the first one that compares greater |
| Lists.InsertedSorted | NachOS-4.0_MP1/code/lib/list.cc:215-240 | inserting keeps a sorted list sorted, for any order |
| Lists.InsertedAt | NachOS-4.0_MP1/code/lib/list.cc:225-236 | where the item goes: behind everything up to there that is not greater, equal elements included, everything else in place |
| Lists.WithoutAt | NachOS-4.0_MP1/code/lib/list.cc:149-162 | what is taken out: the first occurrence, everything else in place |
| Lists.ListIterator.IsDone | NachOS-4.0_MP1/code/lib/list.h:126-127 | true just at the end of the list |
| Lists.ListIterator.Item | NachOS-4.0_MP1/code/lib/list.h:129-132 | the item at the current position |
| Lists.ListIterator.Next | NachOS-4.0_MP1/code/lib/list.h:135-135 | one item further on |
| Threads.StepInv | NachOS-4.0_MP1/code/threads/thread.cc:91-252 | forking, yielding, blocking, finishing, waking and dispatching keep every thread in one place, its status right and the ready list first come, first served |
| Threads.OnePlaceOnly | NachOS-4.0_MP1/code/threads/scheduler.cc:55-159 | over every run each forked thread is in exactly one place: on the CPU, once in the ready list, once in one semaphore's queue, or destroyed once |
| Threads.FirstComeFirstServed | NachOS-4.0_MP1/code/threads/scheduler.cc:72-80 | a ready thread with k ahead of it is the (k+1)-th to be dispatched, whatever happens in between |
| Threads.NeverAgain | NachOS-4.0_MP1/code/threads/scheduler.cc:154-159 | a destroyed thread stays destroyed and is never dispatched again |
| ThreadHistory.ServedInOrder | NachOS-4.0_MP1/code/threads/scheduler.cc:55-80 | over every run the threads that became ready, by Fork, Yield or V, are dispatched in that order, and the rest are in the ready list |
| ThreadHistory.DispatchesRemembered | NachOS-4.0_MP1/code/threads/scheduler.cc:99-118 | over every run the current thread is the one dispatched last |
| ThreadHistory.YieldsToAll | NachOS-4.0_MP1/code/threads/thread.cc:200-214 | whatever happens after a yield, the threads dispatched from then on are all that were ready, in order, and then the one that yielded |
| ThreadHistory.WokenInOrder | NachOS-4.0_MP1/code/threads/synch.cc:83-109 | over every run the threads woken from a semaphore's queue are those put to sleep on it, in the same order |
| ThreadHistory.DestroyedInOrder | NachOS-4.0_MP1/code/threads/scheduler.cc:104-159 | over every run the threads destroyed are those that have finished, in that order, each as soon as another thread is dispatched |
| Threads.Scheduler.ReadyToRun | NachOS-4.0_MP1/code/threads/scheduler.cc:55-61 | the thread is READY and last in the ready list |
| Threads.Scheduler.FindNextToRun | NachOS-4.0_MP1/code/threads/scheduler.cc:72-80 | takes the first ready thread, if any |
| Threads.Scheduler.Run | NachOS-4.0_MP1/code/threads/scheduler.cc:99-144 | the next thread is current and RUNNING; a finishing thread is destroyed by then, and no thread is left to be destroyed |
| Threads.Scheduler.Fork | NachOS-4.0_MP1/code/threads/thread.cc:91-103 | a new thread is READY, last in the ready list |
| Threads.Scheduler.Yield | NachOS-4.0_MP1/code/threads/thread.cc:200-214 | changes nothing if nobody is ready; otherwise the first ready thread is current, RUNNING and off the list, and the thread that yielded is READY and last in it |
| Threads.Scheduler.Sleep | NachOS-4.0_MP1/code/threads/thread.cc:236-245 | the current thread is BLOCKED, last on its semaphore's queue or finishing; the ready list is as it was |
| Threads.Scheduler.SleepLoop | NachOS-4.0_MP1/code/threads/thread.cc:247-251 | if there is a ready thread, the first one is current, RUNNING and off the list, and the old one is destroyed just if it was finishing; otherwise nothing changes |
| Threads.Scheduler.Wake | NachOS-4.0_MP1/code/threads/synch.cc:107-109 | the first thread of the queue, if any, is READY and moves to the end of the ready list |
| Multiplication.AddDouble | NachOS-4.0_MP1/code/machine/mipssim.cc:790-793 | adding word by word with the carry test adds the double words |
| Multiplication.ShiftDouble | NachOS-4.0_MP1/code/machine/mipssim.cc:797-801 | shifting word by word doubles the double word |
| Multiplication.NegateDouble | NachOS-4.0_MP1/code/machine/mipssim.cc:807-813 | complementing both words and adding one gives the two's complement |
| Multiplication.NextBit | NachOS-4.0_MP1/code/machine/mipssim.cc:802-802 | the arithmetic right shift, which fills a negative multiplier with ones, still brings its bits in order |
| Multiplication.MultUnsigned | NachOS-4.0_MP1/code/machine/mipssim.cc:784-803 | hi:lo is the exact 64-bit product of the unsigned operands, early break included |
| Multiplication.Mult | NachOS-4.0_MP1/code/machine/mipssim.cc:762-817 | hi:lo is the exact product, of the ints or of the unsigned ints as the flag says, for all operands including the most negative int |
| UnalignedAccess.SWRBytes | NachOS-4.0_MP1/code/machine/mipssim.cc:634-649 | which bytes of the register SWR merges into the word in memory, and where |
| UnalignedAccess.SWLBytes | NachOS-4.0_MP1/code/machine/mipssim.cc:573-593 | which bytes of the register SWL merges into the word in memory, and where |
| UnalignedAccess.LWRBytes | NachOS-4.0_MP1/code/machine/mipssim.cc:395-414 | which bytes of memory LWR merges into the register, and where |
| UnalignedAccess.LWLBytes | NachOS-4.0_MP1/code/machine/mipssim.cc:342-359 | which bytes of memory LWL merges into the register, and where |
| UnalignedAccess.DifferentFrames | NachOS-4.0_MP1/code/machine/translate.cc:199-240 | different mapped addresses of an injective page table have different physical addresses |
| UnalignedAccess.StoredShows | NachOS-4.0_MP1/code/machine/translate.cc:133-162 | a word stored through the page table shows at its four virtual addresses and at no other |
| UnalignedAccess.Machine.Translate | NachOS-4.0_MP1/code/machine/translate.cc:180-244 | the same exceptions in the same order, the same physical address, and use and dirty bits set on success only |
| UnalignedAccess.Machine.ReadWord | NachOS-4.0_MP1/code/machine/translate.cc:84-118 | reads the four bytes seen at that address, least significant first, if the translation succeeds |
| UnalignedAccess.Machine.WriteWord | NachOS-4.0_MP1/code/machine/translate.cc:133-162 | writes the four bytes of the word and no other, if the translation succeeds |
| UnalignedAccess.Machine.SWR | NachOS-4.0_MP1/code/machine/mipssim.cc:605-661 | changes exactly the bytes from the address to the end of its word, to the register's low bytes; the load in flight takes effect after that |
| UnalignedAccess.Machine.SWL | NachOS-4.0_MP1/code/machine/mipssim.cc:546-603 | changes exactly the bytes from the start of the word to the address, to the register's high bytes; the load in flight takes effect after that |
| UnalignedAccess.Machine.LWR | NachOS-4.0_MP1/code/machine/mipssim.cc:363-416 | puts in flight a load of the bytes from the address to the end of its word over the value the register has or is about to get |
| UnalignedAccess.Machine.LWL | NachOS-4.0_MP1/code/machine/mipssim.cc:311-361 | puts in flight a load of the bytes from the start of the word to the address over the value the register has or is about to get |
| UnalignedAccess.Machine.DelayedLoad | NachOS-4.0_MP1/code/machine/mipssim.cc:705-710 | the load in flight takes effect, the next one is in flight, and register 0 stays 0 |
| UnalignedAccess.Machine.StoreAnywhere | NachOS-4.0_MP1/code/machine/mipssim.cc:546-688 | SWR at A and SWL at A+3, interrupted or not, store a word at the virtual bytes A to A+3 and change no other byte, also across pages: SWR's bytes are those of the register, SWL's those of the register after the load in flight |
| UnalignedAccess.PiecedExactly | NachOS-4.0_MP1/code/machine/mipssim.cc:573-649 | the word so stored is the register's as it was at the first store if and only if the bytes that SWL stores have not changed |
| UnalignedAccess.Machine.StoresRegisterExactly | NachOS-4.0_MP1/code/machine/mipssim.cc:684-688 | it is the register's if and only if no load in flight changes one of the bytes that SWL stores |
| UnalignedAccess.Machine.StoresLoadInFlight | NachOS-4.0_MP1/code/machine/mipssim.cc:684-688 | at an aligned address a load in flight for that register is what gets stored |
| UnalignedAccess.StoreInLoadDelay | NachOS-4.0_MP1/code/machine/mipssim.cc:684-710 | an input where it is not the register's: a program that stores a register right after loading it |
| UnalignedAccess.Machine.LoadAnywhere | NachOS-4.0_MP1/code/machine/mipssim.cc:311-416 | LWR at A and LWL at A+3 load the virtual bytes A to A+3 after the load delay, interrupted in between or not, and leave the other registers to their own loads |
| UnalignedAccess.Machine.StoreThenLoad | NachOS-4.0_MP1/code/machine/interrupt.cc:338-340 | what was stored at any address is loaded again bit for bit, interrupted or not; it is the register's value if no load was in flight for it |
| DiskLatency.SeekEndsAligned | NachOS-4.0_MP1/code/machine/disk.cc:167-180 | the rotation returned brings the end of the seek to the first sector boundary from there on |
| DiskLatency.ModuloDiffLeast | NachOS-4.0_MP1/code/machine/disk.cc:188-193 | the least number of sector times from one sector to the other |
| DiskLatency.LatencyExact | NachOS-4.0_MP1/code/machine/disk.cc:216-233 | without the buffer the transfer starts at the first time after the seek when the head is at the start of the sector |
| DiskLatency.BufferedIff | NachOS-4.0_MP1/code/machine/disk.cc:223-226 | the test for the fast path holds just for reads on the current track of a sector the head has fully passed since the buffer began to fill |
| DiskLatency.LatencyBounds | NachOS-4.0_MP1/code/machine/disk.cc:216-233 | every latency is at least RotationTime and at most 31,999 ticks, and the buffer never makes a request slower |
| DiskLatency.BufferStaysOk | NachOS-4.0_MP1/code/machine/disk.cc:241-249 | over every serialized run the buffer's start is a sector boundary and not later than the next request |
| DiskLatency.KnowsItsTrack | NachOS-4.0_MP1/code/machine/disk.cc:241-249 | after every run lastSector is the sector asked for last, and bufferInit the first sector boundary after the seek of the last request that changed the track, 0 if none did |
| DiskLatency.BufferSound | NachOS-4.0_MP1/code/machine/disk.cc:216-249 | after every serialized run of requests the next one takes one sector time if it reads a sector that the head has swept since it arrived on this track, which the requests alone settle, and otherwise ends one sector time after the head first reaches the sector |
| DiskLatency.Disk.Request | NachOS-4.0_MP1/code/machine/disk.cc:110-144 | needs an idle disk and a sector in range, schedules the interrupt after the computed latency, leaves the disk active, and starts the buffer again just if the track changes |
| DiskLatency.Disk.UpdateLast | NachOS-4.0_MP1/code/machine/disk.cc:241-249 | the sector is the last one asked for; the buffer starts again at the first sector boundary after the seek if the track changes, and is as it was if not |
| BucketArrays.BucketArray.constructor | NachOS-4.0_MP1/code/lib/hash.cc:43-49 | InitBuckets: that many empty lists, no two of them sharing anything |
| BucketArrays.BucketArray.OtherBuckets | NachOS-4.0_MP1/code/lib/hash.cc:134-137 | changing one linked list leaves the lists of all other buckets as they were |
| BucketArrays.BucketArray.Append | NachOS-4.0_MP1/code/lib/hash.cc:110-110 | the item is at the end of that bucket; no other bucket changes |
| BucketArrays.BucketArray.RemoveFront | NachOS-4.0_MP1/code/lib/hash.cc:135-135 | the first item comes out of that bucket; no other bucket changes |
| BucketArrays.BucketArray.Remove | NachOS-4.0_MP1/code/lib/hash.cc:200-200 | that item is taken out of that bucket; no other bucket changes |
| HashTables.NotMovedYet | NachOS-4.0_MP1/code/lib/hash.cc:134-137 | while rehashing, an item still in the old table is not in the new one, so that the ASSERT of List::Append holds |
| HashTables.Added | NachOS-4.0_MP1/code/lib/hash.cc:110-111 | the item appended to the bucket of its key adds that key to the map |
| HashTables.Dropped | NachOS-4.0_MP1/code/lib/hash.cc:194-201 | the item taken out of the bucket of its key removes that key from the map |
| HashTables.HashTable.constructor | NachOS-4.0_MP1/code/lib/hash.cc:29-49 | an empty map in 4 buckets |
| HashTables.HashTable.Find | NachOS-4.0_MP1/code/lib/hash.cc:178-182 | lookup in the map |
| HashTables.HashTable.FindInBucket | NachOS-4.0_MP1/code/lib/hash.cc:155-167 | an item of the bucket with that key, NULL just when there is none |
| HashTables.HashTable.FindInList | NachOS-4.0_MP1/code/lib/hash.cc:157-166 | the walk along the list finds an item with that key just when there is one |
| HashTables.HashTable.Insert | NachOS-4.0_MP1/code/lib/hash.cc:101-114 | adds the item to the map; the table grows fourfold just when it holds three items per bucket, and never holds more |
| HashTables.HashTable.ReHash | NachOS-4.0_MP1/code/lib/hash.cc:125-141 | the map is unchanged, four times the buckets, and every item is in the bucket its key now hashes to |
| HashTables.HashTable.MoveFirst | NachOS-4.0_MP1/code/lib/hash.cc:134-137 | moving one item keeps the account of what is left and what has been moved |
| HashTables.HashTable.Remove | NachOS-4.0_MP1/code/lib/hash.cc:193-205 | returns the item of that key and removes it from the map |
| HashTables.HashTable.FindNextFullBucket | NachOS-4.0_MP1/code/lib/hash.cc:229-236 | the first bucket from there on that is not empty |
| HashTables.HashIterator.constructor | NachOS-4.0_MP1/code/lib/hash.cc:303-310 | starts before the first item |
| HashTables.HashIterator.ArriveAt | NachOS-4.0_MP1/code/lib/hash.cc:321-327 | the search for the next full bucket skips no item |
| HashTables.HashIterator.Next | NachOS-4.0_MP1/code/lib/hash.cc:318-328 | steps past one item, over any number of empty buckets |
| HashTables.StepThrough | NachOS-4.0_MP1/code/lib/hash.h:97-103 | the loop with an iterator meets every item of the map exactly once, and nothing else, bucket by bucket |
| HashTables.EachItemOnce | NachOS-4.0_MP1/code/lib/hash.h:97-103 | bucket by bucket, the table has every item of the map exactly once, and nothing else |

## Left out

- UnalignedAccess.Machine.Translate: translation through a TLB is not modelled; the machine has a page table, as when USE_TLB is not defined.
- Instruction decoding, the base register and exceptions of unaligned access: addresses are parameters, so that the register loaded differs from the base register is left to the program; a failed translation lets the load in flight take effect, as RaiseException does, and what the exception handler does then is not modelled.
- UnalignedAccess.Machine.ReadWord: accesses of 1 and 2 bytes are not modelled; they add only easy cases.
- UnalignedAccess.Machine.WriteWord: the same.
- Sharing of the `Transformer`: the two transforms are functions of opcode and value; their constants are not modelled.
- Input files shorter than the number of lines asked for, and a negative number of lines: the reader gets as many items as it was told to read.
- Races on `is_cancel`: its write is one step and seen at the next test; the memory model of the host is not modelled.
- The order of output lines against that of the input: with several producers and consumers it is not determined; the results are about how often each line is written, and about the order at each end of the pipeline.
- Liveness under the scheduler: the pipeline's results say that steps are enabled and that finishing stays possible, not that a scheduler is fair.
- FileHeaders.FileHeader.Allocate: file sizes outside 0 to MaxFileSize are excluded, because Allocate does not check them and would write beyond its table.
- FileSystems.FileSystem.Create: sizes above MaxFileSize are excluded for the same reason, and so are longer UNIX files in `FileSystemRuns.Copy`.
- OpenFiles.OpenFile.ReadAt: negative positions are excluded, because the code does not check them.
- Directories.Directory.constructor: a new table has zeros where the code leaves memory as it was; only the inUse flags are looked at before a name is stored.
- FileSystem::List, FileSystem::Print and the other printing and self-test routines.
- Concurrent use of the file system, crashes in the middle of an operation, and files removed while open: filesys.cc excludes the first two, and only live files are spoken of.
- Condition::Broadcast and SynchList::Apply, which the modelled calls do not use.
- Interrupts.Interrupt.CheckIfDue: its call DelayedLoad(0, 0) is not part of the clock; module UnalignedAccess models what it does between two instructions.
- Interrupts.Interrupt.OneTick: it says that the thread is to yield; Thread::Yield, which then turns interrupts on and so ticks again, is a further event.
- Threads.Scheduler.Run: saving and restoring user registers and address spaces is not modelled.
- Priorities, time slices and the alarm; the deletion of memory.
- Disk contents in `DiskLatency`: the data moves when the request is made; module FileHeaders models it.
- Console, network, timer, statistics other than ticks, and the overflow of tick and item counters.
