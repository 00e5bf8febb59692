# Verified model of the box broker and TécnicoFS

A Dafny project that models three linked pieces of the repository and proves what
they do, for every size of inode table, block store, block, handle table and queue.

1. **TécnicoFS** (`fs/state.c`, `fs/operations.c`): inode, block and handle tables, a
   root directory in block 0 and one flat byte buffer cut into blocks. `FsModel.dfy`
   states every C function on values, branch by branch; `Tfs.dfy` is the same code on
   arrays changed in place, proved equal to it. `FsAbstract.dfy` is the file system that
   `fs/operations.h` documents: names mapped to byte strings, handles with offsets,
   writes cut at the block size, reads cut at the file size. The header says nothing of
   handles whose file was unlinked and of writes behind the end of a file; there
   `FsAbstract.dfy` has this project's own reading, an error and zeroes. The main result
   (`StepExact`, `RunExact`) says exactly when the code is that file system: which calls
   give its reply and leave tables that stand for its files and handles. `FsExact.dfy`
   tells, from bytes, block numbers and lengths alone, what the calls do in every case,
   those that the documentation does not cover included.
2. **The bounded queue** (`producer-consumer/producer-consumer.c`): a step machine with
   any number of threads at each end, one statement per step, five mutexes, two
   condition variables and spurious wake-ups (`pthread_cond_wait` releases its mutex
   atomically, IEEE Std 1003.1-2017, System Interfaces, `pthread_cond_wait`).
   `PcQueue.dfy` has the same statements on a mutable object. `QueueMutex.dfy` and
   `QueueCounts.dfy` say what holds however many threads there are.
3. **The box log** (`mbroker/mbroker.c`, with the frames of `publisher/pub.c` and
   `subscriber/sub.c`): `BoxProtocol.dfy` interleaves the open, write, close and record
   steps of `write_to_box` with replays, creations and other publishers, on top of the
   concrete file system of piece 1, from the 1024 bytes of a publisher's frame to the
   texts that a replay frames from its message buffer. `BoxSafety.dfy` and `BoxRuns.dfy`
   have its safety, `BoxReplays.dfy` what a replay sends while everything else goes on,
   `BoxHistory.dfy` the account of every message, `BoxSession.dfy` how a publisher's
   session begins, works and ends, `BoxLifetime.dfy` the end of the broker.
   `Broker.dfy` is the sequential code on a box list and a buffer changed in place.
   `Sessions.dfy` is publisher registration, `Framing.dfy` the frames,
   `SubscriberPipe.dfy` the subscriber's reads, and `BoxDelivery.dfy` puts it all
   together, from the lines typed to the lines on the screen.

## How it is built

- A C call has one of four outcomes (`Prelude.Outcome`): it returns, `ALWAYS_ASSERT`
  ends the process (`Panic`), it touches memory outside its buffers (`Wild`), or it
  waits for a mutex that is never released (`Blocked`).
- `FsInvariant.Represents` says that tables stand for a documented file system: the same
  files, the same handles at the same offsets, and a free mutex. Agreement with the
  documentation is stated with it alone. `FsInvariant.Inv` is what the tables keep
  besides, with handles behind their file or without one allowed; that calls keep it is
  a separate conclusion. `FsInvariant.Tidy` adds that no handle is stranded in that way,
  and `FsInvariant.Abs` is the one documented file system of a tidy state.
- Three conditions on a call, judged before it: `FsAbstract.Proper` speaks of names,
  sizes and offsets of the documented state only; `FsSimulation.Sound` adds the writes
  through a stranded handle that come out right by accident of what the buffer and the
  tables hold (`FsWriting.Lucky`); `FsAbstract.Disciplined` is `Proper` and strands no
  handle either.
- `BoxProtocol.BInv` is the invariant of the broker: the file of each box is its
  recorded messages followed by at most one pending message, and every replay has sent
  the texts of the first recorded messages and stands right behind them.
- The functions of `FsModel`, `FsAbstract`, `QueueMachine` and `BoxProtocol` are
  specifications. Their own postconditions say only that tables keep their sizes; what
  they mean is stated by the lemmas and methods in the table below.

## Where the code departs from its documentation

All of these are kept in the model as the code has them.

- `tfs_write` and `tfs_read` do not cut at the block or at the end of the file
  (`fs/operations.c:204-208`, `fs/operations.c:267`), although `fs/operations.h:98-99`
  and `fs/operations.h:111-112` say so. A write over the end lands in the next block
  (`SpillOverwrites`).
- `tfs_rewind_offset` at offset 0 returns with the mutex locked
  (`fs/operations.c:305-307`); every later call blocks (`RewindKeepsLock`).
- Opening, closing and unlinking always do what is documented (`OpenAgrees`,
  `CloseAgrees`, `UnlinkAgrees`). But a truncation leaves moved handles of the file
  behind its end, and an unlink leaves open handles on an inode that another file may
  get; what is written through them afterwards brings old bytes back
  (`TruncationLeaks`) or lands in the other file (`StaleWriteHits`).
  `DocumentationNotMet` gives a short run for each of the five departures.
- A file that has no bytes yet has no block: reading from it ends the process instead of
  delivering nothing (`NewFilePanics`). A file that was truncated keeps the number of its
  old block: reading from it delivers the bytes that were cut off (`TruncatedStillReads`).
- `get_old_messages` fails on a box without a recorded message or with an empty file,
  and frames its first message from a buffer that was not cleared
  (`mbroker/mbroker.c:153`); `ReplayExact` states exactly when an uninterrupted replay
  delivers the log, `ReplayEnds` what it sends in every case, and `InterleavedExact` the
  same for a replay that anything may interrupt.
- A publisher whose message meets an error is never removed from its box. At most that
  one message is lost (`NothingElseIsLost`), but the box has no publisher ever after
  (`DeadForGood`).
- The subscriber reads 1029 bytes at a time (`subscriber/sub.c:39-40`) where frames have
  1025: it is in step exactly as long as no read finds two frames (`SubscriberExact`).
- `create_box_command` and `get_old_messages` never close their handle, so the open-file
  table bounds the broker's life (`HandlesBound`, `WornOut`, `WornOutForGood`).
- `check_args` lets names of 256 and 32 bytes through that leave no room for the
  terminator; `RegistrationsRoundTrip` is an if-and-only-if, and `FullNamesAreLost` says
  that such a name takes everything behind it with it.
- With two threads at one end the queue is not first in first out, whatever its capacity
  (`FifoIffOneThreadEach`), and its size wraps around below 0 (`SizeCounts`).

## Model

| member | source | states |
|---|---|---|
| `FsSimulation.StepExact` | fs/operations.c:79-359 | From good tables that stand for a documented state, for every call and every argument: the call returns, with the documented reply and tables that stand for the documented next state, if and only if it is sound; and then the tables stay good. |
| `FsSimulation.RunExact` | fs/operations.c:79-359 | A whole run agrees with the documentation at every call if and only if every call is sound where it is made; then it returns throughout with the documented replies and final state. |
| `FsSimulation.RunSimulates` | fs/operations.c:79-359 | A run whose calls are proper, judged on the documented states alone, never panics, hangs or leaves the buffer; its replies and final state are the documented ones. |
| `FsSimulation.InitEmpty` | fs/operations.c:25-44 | Whatever malloc left in the tables, tfs_init succeeds exactly when there is an inode and a block for the root, and the file system is then empty and good; otherwise it returns -1 and no inode stays TAKEN. |
| `FsSimulation.ReachableRun` | fs/operations.c:25-359 | Both simulations from tfs_init on: proper runs agree with the documentation, disciplined ones also leave no handle stranded. |
| `FsSimulation.TidyExact` | fs/operations.c:79-359 | From a state without stranded handles, a call agrees with the documentation and strands none either if and only if it is disciplined. |
| `FsSimulation.RunTidy` | fs/operations.c:79-359 | A disciplined run keeps every handle inside its file and follows the documentation. |
| `FsSimulation.NoneStrandedExact` | fs/operations.c:105-345 | Of the proper calls, exactly the disciplined ones strand no handle: no truncation under a moved handle, no unlink under an open one. |
| `FsRefinement.ReadExact` | fs/operations.c:248-284 | tfs_read returns the documented bytes and moves the offset by their number if and only if the handle is closed, or has a file and the read ends inside it. |
| `FsRefinement.RewindExact` | fs/operations.c:286-315 | tfs_rewind_offset meets its documentation exactly at a non-zero offset or on a handle that is not open. |
| `FsRefinement.RewindKeepsLock` | fs/operations.c:305-307 | After a rewind at offset 0 every call blocks for ever. |
| `FsOpening.OpenAgrees` | fs/operations.c:79-161 | tfs_open, in all modes and for every state of the handles, does what is documented and keeps the tables good. |
| `FsExact.OpenExactly` | fs/operations.c:53-161 | tfs_open yields a handle if and only if the name is a '/' and at least one more character, an entry of the open-file table is FREE, and the name is in use or may be created: at most 39 characters, an inode and a 44-byte entry of the root's block to spare. Any other kind of name gets -1 and changes nothing. |
| `FsExact.NewFilePanics` | fs/state.c:234-238 | A file that was just created has an inode without a block, and reading from it ends the process. |
| `FsExact.TruncatedStillReads` | fs/operations.c:105-111 | A file that was just truncated is empty by the documentation, and a read through the new handle delivers its old bytes. |
| `FsOpening.OpenExistingAgrees` | fs/operations.c:99-117 | Opening an existing file, in every mode, truncates it if asked and yields the lowest free handle at 0 or at its end. |
| `FsOpening.OpenNewAgrees` | fs/operations.c:118-147 | Creating a file, or failing to for want of an inode, a directory slot or a valid name; a failure after the inode was taken is rolled back without a trace. |
| `FsOpening.CreateAgrees` | fs/state.c:343-370 | A new inode and a directory entry in the lowest free slots add one empty file and keep the invariant. |
| `FsOpening.ScribbleUnnoticed` | fs/operations.c:130-139 | The inode fields that a rolled-back creation leaves behind are not part of any file. |
| `FsRefinement.TruncateAgrees` | fs/operations.c:105-111 | Truncation empties one file, frees its block and changes no other file and no handle, wherever its handles stand. |
| `FsRefinement.ReadAgrees` | fs/operations.c:266-277 | The bytes copied out of the flat buffer are the file's bytes at the handle's offset. |
| `FsRefinement.ReadPastEnd` | fs/operations.c:266-277 | A read that runs past its file, if it returns, answers with more bytes than the file has left, leaves the handle behind the end and does not match the documentation. |
| `FsExact.ReadExactly` | fs/operations.c:248-284 | tfs_read through any open handle, with or without a file, wherever it stands: it delivers exactly the bytes of the buffer from its inode's block and its offset on, cut nowhere, and moves that handle by all of them; it panics exactly without a block and leaves the buffer exactly when they run over its end. |
| `FsExact.ReadBeginsWithFile` | fs/operations.c:266-277 | On a non-empty file these bytes begin with what the file has left at the offset, however many are asked for; the read is outside the buffer exactly when block and offset and length say so, and the tables stand for the same files with that one handle moved. |
| `FsRefinement.RewindAgrees` | fs/operations.c:300-308 | A rewind of a moved handle sets that handle to 0 and changes nothing else. |
| `FsWriting.WriteExact` | fs/operations.c:186-246 | tfs_write meets its documentation if and only if the write is proper, or goes through a stranded handle and is right by accident of the tables: a gap that holds zeroes, or a block that is missing either way. |
| `FsExact.WriteExactly` | fs/operations.c:186-246 | tfs_write through any open handle: every byte goes to the inode's block, or the lowest FREE one for an empty inode, from the offset on and cut nowhere; no other byte, size, block mark or handle changes; it panics exactly without such a block and leaves the buffer exactly when the bytes run over its end. |
| `FsExact.WriteFindsNoBlock` | fs/operations.c:210-219 | For an empty inode with no block FREE the answer is -1 and nothing changes, for any handle. |
| `FsWriting.WriteAgrees` | fs/operations.c:210-236 | A write inside the file and inside one block replaces its bytes in its own file, first taking a block for an empty file, and moves its own handle. |
| `FsWriting.OtherFileKept` | fs/operations.c:225-229 | A copy inside one block changes no other file's bytes in the flat buffer, because blocks do not overlap. |
| `FsWriting.OwnContent` | fs/operations.c:225-235 | After the copy the file is its old bytes with the new ones written over them; behind the end, what the block held fills the gap. |
| `FsWriting.WriteNothing` | fs/operations.c:194-208 | Through a closed handle, or from an empty buffer, nothing is written and the answer is the documented one. |
| `FsWriting.WriteOverflows` | fs/operations.c:204-235 | A write past the block size that returns answers with all its bytes and leaves a file larger than a block; the documentation has it cut. |
| `FsWriting.GapExact` | fs/operations.c:204-235 | A write that fits its block but starts behind the end of its file matches the documentation exactly when the skipped bytes of the block happen to be zero; the tables stay good in any case. |
| `FsWriting.WriteStale` | fs/operations.c:194-236 | A write through a handle whose file was unlinked, read here as an error, fails exactly when the old inode is empty and no block is free, and then changes nothing. |
| `FsWriting.WriteWithoutBlock` | fs/operations.c:210-219 | For want of a block an empty file is not written, -1 is returned and nothing changes; the documentation agrees unless the handle stands at the end of the block. |
| `FsUnlinking.UnlinkAgrees` | fs/operations.c:317-359 | tfs_unlink always does what is documented: exactly one name, its inode and its block go, every handle of the file loses it, or -1 changes nothing. |
| `FsExact.UnlinkExactly` | fs/operations.c:317-359 | tfs_unlink succeeds if and only if the name is a '/' and at least one more character and is in use, and then exactly that file is gone; in every other case it answers -1 and changes nothing. |
| `FsExact.UnlinkTables` | fs/operations.c:344-345 | It leaves every inode's fields, every byte and every handle as they were, and marks one inode FREE, the one that the name led to. |
| `FsExact.DeletedOnce` | fs/state.c:252-267 | Deleting an inode twice ends the process. |
| `FsDirectory.ClearsTheMatch` | fs/state.c:307-326 | clear_dir_entry, which ignores d_inumber and compares uninitialised names, clears exactly the entry that find_in_dir matched. |
| `FsDirectory.MatchIs` | fs/state.c:401-407 | find_in_dir matches a slot exactly when the name is in use, and then the slot that carries it. |
| `FsExact.StrncmpIs` | fs/state.c:401-407 | The comparison of find_in_dir looks at 40 bytes or up to the first NUL, and holds exactly if the name agrees there. |
| `FsExact.StrcmpIs` | fs/state.c:316-321 | The comparison of clear_dir_entry holds exactly for the whole terminated name, and leaves the entry exactly if its 40 bytes are the first ones of a longer name. |
| `FsDirectory.LookupAgrees` | fs/operations.c:68-77 | tfs_lookup finds an inode exactly when the name is in use, and then the one in the slot that carries it. |
| `FsDirectory.AddHandleAgrees` | fs/state.c:478-490 | A new handle is the lowest free one, on the given file and offset; with none free nothing changes. |
| `FsDirectory.CloseAgrees` | fs/operations.c:163-184 | tfs_close frees exactly its handle, or answers -1 and changes nothing. |
| `FsBlocks.BlockReleased` | fs/state.c:252-267 | When a file gives up its bytes its block becomes FREE and every other block keeps its one owner. |
| `FsBlocks.EmptyInodeAdded` | fs/state.c:198-244 | A new empty inode owns no block and disturbs no owner. |
| `FsBlocks.BytesAdded` | fs/operations.c:210-236 | A write gives an empty file the one free block it took, and keeps every other block's owner. |
| `FsConservation.Conservation` | fs/state.c:162-433 | Live inodes are one more than names, TAKEN blocks one more than non-empty files, and each allocator fails exactly when its table is full by that count. |
| `FsConservation.TakenBlocks` | fs/state.c:420-448 | TAKEN blocks other than the root's are in bijection with non-empty files, each file with the block its inode owns. |
| `FsConservation.LiveInodes` | fs/state.c:162-179 | Live inodes other than the root are in bijection with names, each name with the inode in its slot. |
| `FsConservation.SlotsInUse` | fs/state.c:359-367 | Directory slots in use are in bijection with names, each name with the slot that carries it. |
| `FsGuarantees.TakenIffOwnedOnce` | fs/state.c:420-448 | On the raw tables after any proper run from tfs_init: a block is TAKEN exactly when a live inode with bytes has it, and never two; block 0 stays the root's. |
| `FsGuarantees.NamesAndInodes` | fs/state.c:343-370 | On the raw tables after any proper run from tfs_init: names in use are distinct and 1 to 39 long, their inumbers distinct and live, and every live inode but the root has a slot. |
| `FsGuarantees.HandlesInsideFiles` | fs/operations.c:231-235 | On the raw tables after any disciplined run from tfs_init: every live handle has a live file, and offset <= file size <= block size. |
| `FsGuarantees.FailureAtomicity` | fs/operations.c:79-359 | Any call at all that returns -1, proper or not, changed nothing, except an open without a free handle, which keeps the created or truncated file and only happens when all handles are live. |
| `FsGuarantees.NewHandleIsNew` | fs/state.c:478-490 | A new handle is the lowest free one, differs from every live one and leaves them as they were. |
| `FsGuarantees.WriteLocality` | fs/operations.c:186-246 | A proper write changes bytes [offset, offset + n) of its own file and nothing else, byte by byte, or fails and changes nothing. |
| `FsGuarantees.UnlinkRestores` | fs/operations.c:344-345 | Unlink gives back one inode, and one block exactly if the file had bytes. |
| `FsDepartures.SpillOverwrites` | fs/operations.c:225-229 | A write over the end of a block replaces exactly that many first bytes of the file that owns the next block by its excess, and no others. |
| `FsDepartures.StaleWriteHits` | fs/operations.c:194-236 | A write through a handle whose inode another file got, if it fits the block and finds one, succeeds and changes that file, which is wrong under any reading. |
| `FsDepartures.TruncationLeaks` | fs/operations.c:105-235 | If every block below a file's own is TAKEN, so that it gets that block again, then after its truncation a write through a handle that had moved brings the old bytes before it back, where this project reads zeroes. |
| `FsDepartures.DocumentationNotMet` | fs/operations.c:105-359 | Five concrete runs from tfs_init, of two to four calls, whose last call departs from the documentation in reply, file bytes or mutex. |
| `Prelude.FirstFree` | fs/state.c:163-175 | A first-fit scan stops at the lowest FREE entry. |
| `Prelude.FirstFreeFailsWhenFull` | fs/state.c:420-433 | A first-fit scan fails exactly when all entries are TAKEN. |
| `Tfs.Tfs.StateInit` | fs/state.c:95-128 | state_init marks every entry FREE and leaves the rest as allocated. |
| `Tfs.Tfs.InodeAlloc` | fs/state.c:162-179 | The scan in place does what its value-level counterpart does: it takes the lowest FREE inode or fails. |
| `Tfs.Tfs.InodeCreateFile` | fs/state.c:198-244 | The file branch of inode_create in place. |
| `Tfs.Tfs.InodeCreateDirectory` | fs/state.c:198-244 | The directory branch in place, with its clean-up when no block is free. |
| `Tfs.Tfs.InodeDelete` | fs/state.c:252-267 | inode_delete in place, with its two assertions. |
| `Tfs.Tfs.ClearDirEntry` | fs/state.c:307-326 | The strcmp scan in place, including running over an unterminated name. |
| `Tfs.Tfs.AddDirEntry` | fs/state.c:343-370 | The first empty entry is filled, with its length checks. |
| `Tfs.Tfs.FindInDir` | fs/state.c:385-410 | The strncmp scan in place. |
| `Tfs.Tfs.DataBlockAlloc` | fs/state.c:420-433 | The lowest FREE block is taken, or -1. |
| `Tfs.Tfs.DataBlockFree` | fs/state.c:441-448 | The block is marked FREE, or the assertion fails. |
| `Tfs.Tfs.AddToOpenFileTable` | fs/state.c:478-490 | The lowest FREE entry of the open-file table is taken, or -1. |
| `Tfs.Tfs.TfsInit` | fs/operations.c:25-44 | tfs_init in place. |
| `Tfs.Tfs.TfsOpen` | fs/operations.c:79-161 | tfs_open in place leaves all tables as its value-level counterpart does and gives the same result. |
| `Tfs.Tfs.TfsClose` | fs/operations.c:163-184 | tfs_close in place, likewise. |
| `Tfs.Tfs.TfsWrite` | fs/operations.c:186-246 | tfs_write in place, likewise, copying into the flat buffer. |
| `Tfs.Tfs.TfsRead` | fs/operations.c:248-284 | tfs_read in place, likewise. |
| `Tfs.Tfs.TfsRewindOffset` | fs/operations.c:286-315 | tfs_rewind_offset in place, likewise, with the mutex kept at offset 0. |
| `Tfs.Tfs.TfsUnlink` | fs/operations.c:317-359 | tfs_unlink in place, likewise. |
| `QueueSafety.StepKept` | producer-consumer/producer-consumer.c:48-137 | Every statement of either thread and every spurious wake-up keeps the queue's invariant: counts, slots, work, locks and wake-ups. |
| `QueueSafety.QueueSafe` | producer-consumer/producer-consumer.c:48-137 | In every interleaving of one enqueuer and one dequeuer: first in first out, no unread slot overwritten, stored minus loaded in [0, capacity], size off by the two in-flight corrections only, results a prefix of the input, and no lost wake-up: whoever sleeps unsignalled while it could go on is about to be signalled. |
| `QueueSafety.StoreKeepsSlots` | producer-consumer/producer-consumer.c:63-69 | Storing into the tail slot leaves every unread slot alone. |
| `QueueSafety.EnqSlotsKept` | producer-consumer/producer-consumer.c:63-77 | Unread slots keep holding what was stored, through every statement of pcq_enqueue. |
| `QueueSafety.DeqSlotsKept` | producer-consumer/producer-consumer.c:110-123 | The same through every statement of pcq_dequeue. |
| `QueueSafety.EnqWakesKept` | producer-consumer/producer-consumer.c:54-88 | Every statement of pcq_enqueue keeps the wake-up invariant: a thread going to sleep or asleep unsignalled has its condition false or is about to be signalled. |
| `QueueSafety.DeqWakesKept` | producer-consumer/producer-consumer.c:100-133 | Every statement of pcq_dequeue keeps it as well. |
| `QueueLiveness.StuckMeansDone` | producer-consumer/producer-consumer.c:54-88 | If neither thread can move, everything that was both supplied and asked for is delivered, in order. |
| `QueueLiveness.NoDeadlock` | producer-consumer/producer-consumer.c:48-137 | With n enqueues and n dequeues some thread can move until all n elements are delivered. |
| `QueueLiveness.PickForced` | producer-consumer/producer-consumer.c:84 | Which sleeping thread a signal wakes is never a choice with one thread at each end. |
| `QueueLiveness.BoundedRuns` | producer-consumer/producer-consumer.c:48-137 | Every run of n enqueues and q dequeues takes at most 16 (n + q) steps plus 4 for each spurious wake-up. |
| `QueueLiveness.MaximalRuns` | producer-consumer/producer-consumer.c:48-137 | Every maximal run of n enqueues and n dequeues without spurious wake-ups has at most 32 n steps and has returned the input. |
| `QueueLiveness.RunsComplete` | producer-consumer/producer-consumer.c:48-137 | Every run without spurious wake-ups can be continued to such an end. |
| `QueueThreads.FifoIffOneThreadEach` | producer-consumer/producer-consumer.c:51-69 | For each capacity: all runs are first in first out if and only if one thread enqueues and one dequeues. |
| `QueueThreads.TwoEnqueuersOverwrite` | producer-consumer/producer-consumer.c:51-69 | Whatever the capacity, two enqueuers that both saw the last free slot overwrite an unread element. |
| `QueueThreads.TwoDequeuersReadTooMuch` | producer-consumer/producer-consumer.c:96-114 | Whatever the capacity, two dequeuers that both saw one element load a slot nothing was stored in. |
| `QueueMutex.MutualExclusion` | producer-consumer/producer-consumer.c:48-137 | For any number of threads at each end and every interleaving: each of the five mutexes is held by the thread that stands between its lock and its unlock, and no two stand there. |
| `QueueMutex.SignalWakesOne` | producer-consumer/producer-consumer.c:84-130 | A signal wakes one sleeping thread of the other side, whichever it picks, or none if none sleeps; nothing else but a spurious wake-up wakes any. |
| `QueueCounts.SizeCounts` | producer-consumer/producer-consumer.c:73-118 | For any number of threads and every interleaving: the size is the stores minus the loads that were counted, modulo 2 to the 64. |
| `QueueCounts.SleepsExactly` | producer-consumer/producer-consumer.c:54-103 | An enqueuer goes to sleep exactly when it finds the size at the number of slots, a dequeuer exactly when it finds it 0. |
| `QueueCounts.SpuriousWakes` | producer-consumer/producer-consumer.c:55-101 | Exactly the sleeping threads may wake without a signal, and then one alone leaves its condition variable. |
| `PcQueue.PcQueue.PcqCreate` | producer-consumer/producer-consumer.c:8-25 | A new queue is the step machine's initial state. |
| `PcQueue.PcQueue.EnqueueStep` | producer-consumer/producer-consumer.c:48-91 | Each statement of pcq_enqueue in place changes the queue and the thread as the step machine does, or leaves the queue alone when the thread must wait. |
| `PcQueue.PcQueue.DequeueStep` | producer-consumer/producer-consumer.c:93-137 | Each statement of pcq_dequeue, likewise. |
| `PcQueue.Share` | producer-consumer/producer-consumer.c:48-137 | What the object itself promises to one enqueuer and one dequeuer, for every schedule of their statements and of spurious wake-ups: order, unread slots, prefix of the input, and the size field up to the two corrections. |
| `BoxLog.SplitFlatten` | mbroker/mbroker.c:152-189 | Cutting a box's file by its recorded sizes gives back the messages, whatever lies behind them. |
| `BoxLog.FlattenSplit` | mbroker/mbroker.c:152-189 | The pieces cut from a file make up the file again and have the recorded sizes. |
| `BoxLog.SizesSum` | mbroker/mbroker.c:693-710 | The recorded sizes sum up to the length of the log's bytes. |
| `BoxLog.MessageAt` | mbroker/mbroker.c:183-188 | Message k lies in the file right behind the messages before it. |
| `BoxRuns.StepFine` | mbroker/mbroker.c:135-755 | From a good state, a step of any thread leads to a good state if and only if it is allowed: the publisher's frame is terminated, the message fits its block, the replayed file was not empty when opened, and a first message is recorded, with a NUL in the buffer behind it, when it is fetched. |
| `BoxRuns.RunFine` | mbroker/mbroker.c:135-717 | In every interleaving, all states of a run are good exactly when all its steps are allowed. |
| `BoxRuns.BoxesHoldTheirLogs` | mbroker/mbroker.c:662-717 | In every good state a box's file is its recorded messages plus at most one pending one, the sizes cut it into the recorded messages, and every replay has sent exactly the texts framed for the first of them. |
| `BoxRuns.RunLater` | mbroker/mbroker.c:135-755 | No stored or recorded message is lost or changed during an allowed run, and what a replay has sent only grows. |
| `BoxRuns.FetchesDeliver` | mbroker/mbroker.c:164-189 | Once its first text is sent, the loop of get_old_messages, if nothing interrupts it, sends the rest of the log as it was stored and ends. |
| `BoxProgress.MessageExact` | mbroker/mbroker.c:662-755 | write_to_box, uninterrupted, passes through good states only and records the text it was sent, with the publisher going on, if and only if the frame is terminated, a handle is free and the file's block has room behind the recorded messages (or a first block is free). |
| `BoxProgress.CreateExact` | mbroker/mbroker.c:248-301 | A box is added if and only if its name is new and a '/' with at least one more character, a handle is free and the file exists or can be created (at most 39 characters, an inode and a 44-byte entry to spare); it starts empty and without a publisher, and no other box changes. |
| `BoxSession.SessionMoves` | mbroker/mbroker.c:359-436 | A registration makes the publisher of a free box ready, a removal frees the box of a ready one, an error on its pipe ends its session for good; from anywhere else these steps do nothing, and none of them changes anything else. |
| `BoxSession.ErrorsEndSessions` | mbroker/mbroker.c:662-678 | In any state, good or not: an open, write or close in write_to_box that returns -1 ends the session and records nothing. |
| `BoxSession.ErrorsInReplays` | mbroker/mbroker.c:135-189 | In any state: an open, rewind or first read that returns -1 ends a replay as failed; a later read that fails goes unnoticed and an empty text is sent. |
| `BoxSession.LinesRecorded` | mbroker/mbroker.c:662-757 | A ready publisher whose lines have room in the box's file has all of them recorded, in order and as typed, with their bytes behind what the file held and no handle left over. |
| `BoxSession.FirstSession` | mbroker/mbroker.c:248-757 | From any good state: create a box, register a publisher, send lines that fit a block. The box's log is exactly these lines and its file exactly their bytes. |
| `BoxRuns.ReplayExact` | mbroker/mbroker.c:135-192 | A replay that nothing interrupts, begun while a handle is free, delivers exactly the log if and only if the log has a message, the file a byte, and the uncleared buffer a NUL right behind the first message. |
| `BoxRuns.ReplayEnds` | mbroker/mbroker.c:135-192 | What a replay that nothing interrupts, begun while a handle is free, sends in every case: on a non-empty file, the first message and what the uncleared buffer holds behind it up to its next NUL, then the rest of the log as it is, and nothing else; without such a NUL strlen leaves the buffer. |
| `BoxReplays.ReplayFinishes` | mbroker/mbroker.c:151-192 | In every allowed interleaving with publishers, creations and other replays: a replay that finishes has sent exactly the log of its box as it was at the replay's last fetch, the first message followed by what the uncleared buffer holds up to its next NUL; that is everything recorded before and nothing not recorded after. |
| `BoxReplays.InterleavedExact` | mbroker/mbroker.c:151-192 | Such a replay delivers that log exactly as it was stored if and only if its buffer held a NUL right behind the first message. |
| `BoxReplays.SendsWhatWasThere` | mbroker/mbroker.c:151-192 | It has sent everything that was recorded at any time before it finished, for one when it began. |
| `BoxReplays.FetchesFinish` | mbroker/mbroker.c:164-189 | Whatever interrupts it, a replay that has fetched more often than there are messages to send has finished. |
| `BoxRuns.HandlesBound` | mbroker/mbroker.c:139-301 | Boxes created plus replays begun never exceed the open-file table, because neither closes its handle. |
| `BoxRuns.WornOut` | mbroker/mbroker.c:139-301 | Once they equal it, every creation and every replay fails and every publisher's next message ends its session. |
| `BoxLifetime.WornOutForGood` | mbroker/mbroker.c:139-301 | And that is so in every later state of every allowed run, with the same boxes and the same replays. |
| `BoxRuns.ReachableBoxes` | mbroker/mbroker.c:135-717 | All this holds from tfs_init on. |
| `BoxHistory.RunWrites` | mbroker/mbroker.c:662-717 | In every allowed run a box holds exactly the messages whose write succeeded, in order. |
| `BoxDelivery.StoredIsDelivered` | mbroker/mbroker.c:135-192 | Round trip: after any allowed interleaving the box holds what its publishers sent, all but at most the last message of a session that ended in an error; an uninterrupted replay of a box without a message under way delivers exactly that, empty messages included, if and only if it has at least one byte and the buffer a NUL right behind the first message. |
| `BoxHistory.NothingElseIsLost` | mbroker/mbroker.c:662-755 | Accounting over every run: what a box's publishers sent is, in order, what was stored, then what is on its way, then at most one lost message, and one is lost only when the session has ended in an error. |
| `BoxHistory.DeadForGood` | mbroker/mbroker.c:759-855 | A session that has ended in an error never takes or stores a message again, in any run. |
| `BoxDelivery.TypedIsTaken` | mbroker/mbroker.c:747-755 | The texts that the broker takes from a box's publishers are exactly the lines typed there. |
| `BoxDelivery.LinesArePrinted` | subscriber/sub.c:39-64 | From keyboard to screen, over every allowed run from an empty broker: the lines typed for a box are stored in order, all but at most the last one of a session that ended in an error; each replay, interrupted or not, has sent texts for the first of them, and the k-th is printed as the k-th line typed, always for k > 0, and for k = 0 if and only if the replay's buffer held a NUL right behind it; and a replay that has finished has missed nothing recorded before its last fetch. |
| `BoxDelivery.ScreenExact` | subscriber/sub.c:25-64 | With the subscriber's own reads: once its pipe is empty, the screen shows exactly the first lines typed, as many as the replay sent, if and only if no read found two frames and, unless nothing was sent, the replay's buffer held a NUL right behind the first line. |
| `BoxSafety.CreateFine` | mbroker/mbroker.c:248-301 | Creating a box always leads to a good state; a new box is empty even on a file that existed. |
| `BoxSafety.PublishFine` | mbroker/mbroker.c:662-755 | Receiving a message and opening the file for it leads to a good state, with the handle behind the recorded messages, if and only if the frame is terminated. |
| `BoxSafety.StoreFine` | mbroker/mbroker.c:669-673 | The write in write_to_box leads to a good state if and only if the message fits. |
| `BoxSafety.SpillIsNotFine` | mbroker/mbroker.c:669-673 | A message that does not fit leaves, if the call returns, a file larger than its block, and so no good file system. |
| `BoxSafety.ShutFine` | mbroker/mbroker.c:675-678 | The close in write_to_box always leads to a good state. |
| `BoxSafety.RecordFine` | mbroker/mbroker.c:680-715 | Recording the size always leads to a good state: the pending message becomes the last recorded one. |
| `BoxSafety.SubscribeFine` | mbroker/mbroker.c:438-467 | Beginning a replay always leads to a good state. |
| `BoxSafety.RestartFine` | mbroker/mbroker.c:146-149 | The rewind leads to a good state if and only if the handle does not stand at 0. |
| `BoxSafety.FetchFine` | mbroker/mbroker.c:151-189 | A fetch leads to a good state if and only if it is not the first, or finds a recorded message (the code follows a null pointer otherwise) and a NUL behind it in the buffer. |
| `BoxSafety.NextFine` | mbroker/mbroker.c:183-188 | A fetch frames the next recorded message, read whole from the file, whatever is pending behind the log, and can go wrong only for the first. |
| `BoxFrames.GoodStored` | mbroker/mbroker.c:669-673 | An appended message becomes the pending one of its own box; no other box and no replay notices. |
| `Broker.Broker.constructor` | mbroker/mbroker.c:30 | The box list starts empty. |
| `Broker.Broker.FindBoxByName` | mbroker/mbroker.c:123-133 | The walk finds the first node of that name, or none if there is none. |
| `Broker.Broker.CreateBox` | mbroker/mbroker.c:248-301 | The list in place follows the protocol's creation step, in file system, boxes and return code. |
| `Broker.Broker.ReceiveMessage` | mbroker/mbroker.c:747-757 | Measuring the received buffer and write_to_box in place, for any box name; for the box's own publisher between two messages these are the protocol's four steps for those 1024 bytes, strlen running on included. |
| `Broker.Broker.WriteToBox` | mbroker/mbroker.c:662-717 | write_to_box in place, for any name and any message: open, write, close and the size recorded in the first box of that name, or -1 if there is none; for the box's own publisher between two messages these are the protocol's four steps, and 0 is returned exactly when all succeeded. |
| `Broker.Broker.RegisterSubscriber` | mbroker/mbroker.c:438-467 | Find and get_old_messages in place do the protocol's whole replay for what malloc left in the buffer, and return 0 exactly when it ended with every text sent in its frame. |
| `Broker.Broker.GetOldMessages` | mbroker/mbroker.c:135-192 | get_old_messages in place, from the open to the last frame, is the protocol's whole replay. |
| `Broker.Broker.SendMessage` | mbroker/mbroker.c:153-188 | One read into the message buffer and the frame made from it are one fetch step, with a failed read noticed only for the first. |
| `Broker.Broker.SendAll` | mbroker/mbroker.c:151-192 | The replay loop in place, with its buffer copied into, framed and cleared, takes the protocol's fetch steps and writes their frames. |
| `Broker.Broker.RegisterPublisher` | mbroker/mbroker.c:359-398 | Registration in place is the registry command and the protocol's step, for any name and pipe. |
| `Broker.Broker.RemovePublisher` | mbroker/mbroker.c:401-436 | Removal in place does what the registry command does, for any name and pipe, including strcmp with a null pointer; between two messages it is the protocol's step. |
| `Sessions.Exclusion` | mbroker/mbroker.c:359-436 | Over any run, between two successful registrations on a box there is a successful removal naming the first one's pipe. |
| `Sessions.HeldUntilRemoved` | mbroker/mbroker.c:376-390 | While a pipe is registered, another registration can succeed only after that pipe was removed by name. |
| `Sessions.StoredNameIsOpenSession` | mbroker/mbroker.c:359-436 | After any run a box stores a pipe's name exactly when that pipe registered, or was there at the start, and was not removed since. |
| `Sessions.RegisterExact` | mbroker/mbroker.c:359-398 | Anywhere in a run, a registration succeeds exactly when the box exists and no pipe has a session on it at that moment. |
| `Sessions.CrashExact` | mbroker/mbroker.c:417 | A run crashes exactly when it removes a publisher from a box that has none. |
| `Framing.CreateTextFrame` | publisher/pub.c:16-21 | The publisher's (and the broker's) 1025-byte frame: code, text, zeroes. |
| `Framing.CreateRegistration` | publisher/pub.c:31-39 | The 289-byte frame of publisher and subscriber: code, pipe name and box name in zero-filled fields. |
| `Framing.FrameBuffer` | mbroker/mbroker.c:82-88 | create_message of the broker frames the C string in its buffer, or runs on if there is no NUL. |
| `Framing.RegistrationsRoundTrip` | mbroker/mbroker.c:796-866 | A stream of registrations that check_args lets through is read back as sent if and only if every name leaves room for its terminator. |
| `Framing.FullNamesAreLost` | publisher/pub.c:63-84 | check_args accepts a name of the full 256 or 32 bytes, and the broker runs on over its end; no other accepted registration does that. |
| `Framing.ReceivedText` | mbroker/mbroker.c:747-755 | What strlen cuts from a received text has no NUL and at most 1023 bytes. |
| `Framing.StoredText` | mbroker/mbroker.c:747-755 | A line of at most 1023 bytes is stored as it was typed. |
| `Framing.LinesRoundTrip` | mbroker/mbroker.c:720-757 | The frames of a publisher, 1025 bytes each beginning with the byte 9, are read by the broker as exactly its lines. |
| `Framing.SkipsOtherBytes` | mbroker/mbroker.c:732-765 | Bytes other than 9 in front of the frames change nothing. |
| `Framing.ReplayedExactly` | mbroker/mbroker.c:151-189 | The text framed for a stored message is the message and the bytes of the buffer behind its place up to the next NUL, and strlen leaves the buffer exactly if there is none. |
| `Framing.ReplayedExact` | mbroker/mbroker.c:151-189 | A stored text is framed again unchanged if and only if the buffer it is read into holds a NUL right behind it. |
| `Framing.Printed` | subscriber/sub.c:39-64 | From any chunk that begins with a frame the subscriber prints exactly its text. |
| `Framing.PrintedExactly` | subscriber/sub.c:39-64 | For every read and whatever was in the buffer before: nothing is printed exactly if the first byte is not 10, otherwise exactly the bytes behind it up to the first NUL, which must come within 1024. |
| `SubscriberPipe.StopsExactly` | subscriber/sub.c:39-64 | One pass of the loop takes up to 1029 bytes; if they begin with another byte than 10 the client prints nothing and stops, and in no other case. |
| `SubscriberPipe.ReadsInside` | subscriber/sub.c:39-64 | A read that starts four bytes inside a frame prints nothing and stops the client, unless the fourth character of the text is the byte 10: then it prints the text from its fifth character on. |
| `SubscriberPipe.SubscriberExact` | subscriber/sub.c:25-64 | For every interleaving of frames sent and reads done that empties the pipe: the subscriber has printed the texts it was sent, in order, if and only if no read found more than one frame. |
| `SubscriberPipe.NeverInStepAgain` | subscriber/sub.c:39-64 | Once a read has started inside a frame, that frame's text is not the next one printed, whatever comes later. |

## Left out

- Named pipes, `open`/`read`/`write`/`select` on them, signals, printing and `main` loops: I/O. The broker's reads are taken to return whole frames; the subscriber's are modelled in `SubscriberPipe.dfy`, where end of file and errors on its pipe are left out; writes of at most PIPE_BUF bytes are atomic and a read takes what is there up to its size (IEEE Std 1003.1-2017, System Interfaces, `write` and `read`).
- `Framing.SkipsOtherBytes`: a frame torn at the end of a publisher's stream, whose missing bytes are whatever the broker's buffer held, counts as running off the buffer.
- `BoxDelivery.LinesArePrinted`: says what is printed for frames that are read one at a time; reads that find two frames are the subject of `SubscriberExact` and `ScreenExact`.
- `insert_delay`, `malloc` failure and errors returned by mutex or condition-variable calls: timing and environment.
- Integer widths of inumbers, block numbers, offsets and message sizes: taken as unbounded; the queue's `size_t` size field does wrap around in the model.
- `state_init` on tables that are already allocated, `state_destroy`, `tfs_destroy` and `pcq_destroy`: they only allocate and free.
- Block 0 is a typed array of directory entries, not 44-byte records in the flat buffer; that it is never handed out again is proved (`TakenIffOwnedOnce`), and the run of a spilling write into or out of it is therefore not modelled byte by byte.
- A block size of 0 (a division by zero in the allocators' delay test) and a queue of capacity 0 (a division by zero in `pcq_enqueue`) are excluded.
- `memcpy(&session, elem, ...)` in `pcq_enqueue`, which reads through the element and drops the result.
- The unsynchronised read of the queue's size field in the two loop tests, and the unsynchronised read of the list of sizes during a replay, are taken as atomic.
- `Tfs.Tfs.InodeCreateFile`: one of the two branches of `inode_create`; the switch on the type is resolved by calling the method for it.
- `PcQueue.PcQueue.EnqueueStep`: one statement per call, so that threads can interleave; the position of a thread travels as a value.
- `Broker.Broker.WriteToBox`: the box list and the list of sizes are sequences that the methods reassign, so linked-list nodes, the two walks to the tail and aliasing between nodes are not captured.
- `BoxProgress.CreateExact`: `box_list_mutex` is taken to be granted; the wait for it while a subscriber's session holds it is not modelled (publishers' threads also unlock it without holding it, `mbroker/mbroker.c:764`).
- `BoxProgress.MessageExact`: likewise, for the mutex that recording the size takes.
- `BoxRuns.ReplayExact`: likewise, for the mutex that a subscriber's session takes; and it is about a replay that nothing interrupts, the other case being `BoxReplays.InterleavedExact`.
- `Broker.Broker.CreateBox`: likewise, a new node is appended to a sequence instead of linked behind the tail.
- `Broker.Broker.RegisterSubscriber`: the subscriber record that is linked into the box before the replay, and the wait behind it until the pipe is closed, are left out.
- `Broker.Broker.RegisterPublisher`: the pipe name is held by value, where the source stores a pointer into the caller's stack frame.
- Box removal (`remove_box_command`): its search loop frees the boxes it passes and unlinks the target, so there is no stable behaviour to state.
- Several subscribers per box, `spread_message` and `get_box_by_publisher_pipe`: a second subscriber is never linked into the list and names are compared without a null test.
- The answer, listing and manager messages: the two sides lay out the last flag differently.
- `mbroker_thread.c`: an unfinished variant outside the build.
- Links and copying from the outside, declared in `fs/operations.h`: not part of this model.
