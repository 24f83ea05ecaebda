# A verified model of the THOS kernel core and its tokenizer

THOS is a small SMP kernel with an ext2 file system, a registry, pipes, events and an xHCI driver, plus a byte-level
BPE tokenizer for its on-device model. This project models the parts where correctness rests on an argument across
several functions or several CPUs, and proves that argument in Dafny. `dafny verify dfyconfig.toml` checks all of it.

**Scheduler** (`Scheduler`, `SchedulerInvariant`, `SchedulerTheorems`, `SchedulerEffects`, `SchedulerKernel`). A context
switch is four separately interleavable steps on each of any number of CPUs: a locked commit (or exit), the claim of the
next thread, the stack switch, and a locked finish in two parts. `unblock` is two steps as well: the store of
`wake_pending` comes before the lock. A run is any interleaving of these with booting, spawning, blocking and reaping.
Besides what every run keeps, each locked section is described on reachable states without naming its own definition:
who runs next, who is requeued and where. The class `Kernel` holds the locked sections in the form the source has them,
meets the same descriptions and is tied to the steps of the machine.

**Waiting** (`WaitQueue`, `WaitEffects`, `FreshWake`, `LateWake`, `Event`, `Pipe`, `LockOrder`, `Timer`, `MultiWait`).
`wait_if` and `wake_all` as a machine on top of the scheduler, generic in the object waited for: nobody is stranded, and nobody who was
told to block gets out without being woken. The manual-reset event and the bounded pipe are two instances. Besides: the
order in which queues, wheel and scheduler are locked, the tick clock, and waits on several queues at once.

**ext2** (the `Ext2...` modules). A volume has bitmaps, redundant counters, inode records and blocks of bytes, changed
by single-sector writes; a crash leaves the volume after some prefix of them. On it: the allocators, the three-level
file layout, reading, freeing, directories down to their bytes, and the operations create, overwrite, unlink, mkdir and
rmdir below a directory already found. `Mounted` accounts for the space: counters agree with the bitmaps, no block has
two owners, and the used blocks are exactly the metadata and the owned blocks. `VolumeOk` is the state between
operations: besides, every directory is well formed, the directories form a tree below the root by their names and
`..`, and link counts count names. Each operation is stated with the exact condition of its success, and with the exact
condition under which it leaves such a volume; `Ext2Runs` puts them together over every sequence of operations, failed
ones included. `Ext2Tally` and `Ext2Types` do the same for two redundant facts a checker looks at: each group's count of
directories, and the kind of inode each directory record claims to name. `Ext2Sectors` justifies the single-sector writes
one level down, on the raw bytes of the disk.

**Tokenizer** (`Bpe`, `BpeTrainer`, `BpeCodec`, `BpeTheorems`). The incremental trainer (pair counts, reverse index, lazy
heap) against a trainer that recounts everything each round; the encoder (lowest rank, leftmost) against one pass per
merge; decoding; and the chunks all of it works on, as the only way to cut the data into alternating runs.

**Registry** (`Registry`, `RegistryPaths`, `RegistrySpelling`, `RegistryHive`, `RegistryText`, `RegistryParse`,
`RegistryLive`, `RegistryQuery`, `Utf8`). The hive file: a tree flattened to path-addressed lines of hexadecimal fields
and rebuilt by find-or-create; and the tree in memory, built by any sequence of creating and deleting keys, setting
values and loading hives. Every operation is described by what queries see after it, for every path and name, and such
trees are equal exactly when no query tells them apart.

**xHCI** (`XhciRing`, `XhciEvents`). The cycle-bit transfer ring with its Link entry, and the event ring, each with the
other side's rules from sections 4.9.2 to 4.9.4 of the xHCI specification.

Eight places where a natural reading of the code or its comments does not hold, each stated exactly:

- A file written with 2^32 bytes or more does not read back: the size field keeps 32 bits. Writing then reading gives
  the data if and only if it is shorter (`Ext2Write.ReadsBack`). With 4 KiB blocks such files are within the layout's
  limit and are written whenever enough blocks are free (`Ext2Write.WrapFits`, `Ext2Write.LayOutData`).
- A hive comes back from its file if and only if no direct child of its root is called `registry`, because a leading
  component of that name is dropped when paths are split (`RegistryText.HiveRoundTrip`, `RegistryLive.LiveRoundTrip`).
  Creating that key is enough to get there (`RegistryLive.LostHiveReachable`).
- After a push to a transfer ring the controller still comes to the oldest unread entry if and only if there was room,
  and room is one slot less than it seems while the controller stands in front of the Link (`XhciRing.RoomExactly`). A
  run into the stall, every earlier push of which had room, is given (`XhciRing.StallReached`).
- A multi-wait leaves its thread in no queue and not on the wheel, over all interleavings, if and only if the thread
  entered it with no entry in another queue and none on the wheel (`MultiWait.CleanExactly`). `wait_if` can leave such an
  entry behind (`MultiWait.StaleEntryStays`). The queues of the call itself are clean in every case.
- `rmdir` leaves a well-formed volume if and only if the name is not `.` or `..` (`Ext2Volume.RemovedExactly`). Removing
  `.` frees the directory it was looked up in, while the directory above keeps its name for the freed inode, whose record
  still points at the freed blocks (`Ext2Volume.RemovedByDot`). System calls never get there, because `resolve_path`
  drops the dots (kernel/src/process.rs:956-972).
- Writing to a name that stands for a directory overwrites the directory. The volume stays well formed if and only if
  the target is no directory, or the data is a directory that fits in its place (`Ext2Image.RewroteExactly`); one byte
  does not (`Ext2Image.OverwrittenDirectory`). A file written through a descriptor that was opened before its name came
  to stand for a directory gets there (kernel/src/file.rs:147).

- A thread that was told to block leaves the wait only after an `unblock` of it, but that need not be a wake meant for
  this wait: the `unblock` may have stored its wake before the thread armed itself and take the scheduler lock after
  (`WaitEffects.LeavesOnlyWoken`). In every continuation the wake is one stored since the thread armed itself, if and only
  if no `unblock` of it was in flight then (`FreshWake.FreshExactly`, `WaitEffects.LeavesOnlyFreshlyWoken`); a whole run
  into the other case is given (`LateWake.LeavesLateWoken`). The source's callers check their condition again in a loop.
- A group's used-directory count stays right over an operation if and only if it is not a `mkdir` of a new name that finds
  a free inode but no free block: the inode stays counted as a directory it never becomes (`Ext2Tally.TallyExactly`,
  `Ext2Tally.RunTally`).

## Model

| member | source | states |
|---|---|---|
| `SchedulerTheorems.StepSound` | kernel/src/sched.rs:538-773 | every step of the machine (boot, spawn, mark, both halves of `unblock`, commit, exit, claim, switch, both halves of finish, reap) keeps the scheduler invariant |
| `SchedulerTheorems.RunSound` | kernel/src/sched.rs:402-773 | every state of every run, for any number of CPUs and threads and any interleaving, satisfies the invariant |
| `SchedulerTheorems.StacksExclusive` | kernel/src/sched.rs:569-740 | no thread's kernel stack is in use by two CPUs, and `running` is set exactly for threads that are on a stack, claimed or awaiting release |
| `SchedulerTheorems.ResumesLiveContext` | kernel/src/sched.rs:644-740 | a stack switch always resumes a saved context, and the claim before it succeeds at its first attempt |
| `SchedulerTheorems.NoLostWakeup` | kernel/src/sched.rs:538-566 | a parked thread with a wake pending has an `unblock` between its store and its lock, which will make it ready; one still leaving its stack is requeued by the finish or has such an `unblock` |
| `SchedulerTheorems.QuietMeansDelivered` | kernel/src/sched.rs:651-740 | with no switch and no `unblock` in flight, no blocked thread has a wake pending |
| `SchedulerTheorems.ReadyQueueClean` | kernel/src/sched.rs:619-632 | the ready queue has no duplicates and no phantoms: every entry is Ready, not running, current nowhere, in no handoff; `pick_next` takes the front and discards nothing |
| `SchedulerTheorems.ThreadsConserved` | kernel/src/sched.rs:442-773 | every non-idle thread is in exactly one of: current, ready, leaving, parked, exited |
| `SchedulerTheorems.ExitIsFinal` | kernel/src/sched.rs:569-609 | no step changes an exited thread back |
| `SchedulerTheorems.ExitedNeverRuns` | kernel/src/sched.rs:569-632 | from the moment it has exited a thread is current nowhere and never ready again, for the rest of the run |
| `SchedulerTheorems.FreedStackUnused` | kernel/src/sched.rs:755-773 | a stack is freed only when no CPU is on it, has claimed it or has yet to release it, and none ever is again |
| `SchedulerInvariant.PickTakesFront` | kernel/src/sched.rs:619-632 | on every reachable queue the stale-entry loop of `pick_next` ends at once with the front entry |
| `SchedulerEffects.CommitYields` | kernel/src/sched.rs:644-707 | in every reachable state, unless it blocks with a wake pending: a non-empty ready queue gives up its front, which becomes current and Running, and the old thread is handed off, Blocked or Ready; on an empty queue a worker gives way to the idle thread and the idle thread stays |
| `SchedulerEffects.ExitDies` | kernel/src/sched.rs:569-609 | the same for `exit`: the thread is Exited and in the graveyard, and its heir, the front of the queue or the idle thread, is current |
| `SchedulerEffects.DecideRequeues` | kernel/src/sched.rs:718-740 | the thread left goes to the end of the queue, Ready, exactly when it is no idle thread, has not exited, and yielded or was woken while leaving; nothing else changes |
| `SchedulerEffects.FinishFinishes` | kernel/src/sched.rs:718-740 | after both halves of `finish_switch` its `running` flag is clear as well and the CPU is between switches |
| `SchedulerEffects.WakeWakes` | kernel/src/sched.rs:556-566 | `unblock` under the lock puts a parked thread at the end of the queue, Ready, and otherwise changes nothing but its own bookkeeping |
| `SchedulerEffects.ReadyIsFifo` | kernel/src/sched.rs:442-740 | every step of every run leaves the ready queue, takes its front, or appends one thread |
| `SchedulerKernel.Kernel.PickNextReady` | kernel/src/sched.rs:619-632 | the in-place loop over the ready queue computes `PickNext` and changes nothing else |
| `SchedulerKernel.Kernel.Reschedule` | kernel/src/sched.rs:644-707 | the locked part of a switch on the kernel's fields: who is current, ready, handed off and in which state, as `CommitYields` says; it is the machine's commit step |
| `SchedulerKernel.Kernel.ExitCurrent` | kernel/src/sched.rs:569-609 | the locked part of `exit` on the kernel's fields, as `ExitDies` says; it is the machine's exit step |
| `SchedulerKernel.Kernel.FinishSwitch` | kernel/src/sched.rs:718-740 | the locked part of `finish_switch` on the kernel's fields, as `FinishFinishes` says; it is the machine's two finish steps |
| `SchedulerKernel.Kernel.UnblockLocked` | kernel/src/sched.rs:556-566 | the locked part of `unblock` on the kernel's fields, as `WakeWakes` says; it is the machine's wake step |
| `SchedulerKernel.Kernel.Reap` | kernel/src/sched.rs:755-773 | the in-place swap-remove loop frees exactly the dead threads no CPU still runs on and nobody still holds, keeps the others, and is a run of free steps of the machine |
| `WaitQueue.MStepKeeps` | kernel/src/wait.rs:46-58 | every step of waiting, changing the object, draining and unblocking, interleaved with every scheduler step, keeps the wait invariant |
| `WaitQueue.MRunKeeps` | kernel/src/wait.rs:140-147 | every state of every run of the wait machine satisfies it |
| `WaitQueue.ParkedIsFindable` | kernel/src/wait.rs:46-58 | a parked waiter is still queued, or among those a waker has drained, or has an `unblock` in flight |
| `WaitQueue.NotStranded` | kernel/src/wait.rs:46-147 | a thread parked in a wait whose condition no longer blocks it has a wake in flight |
| `WaitQueue.WakerNeverStuck` | kernel/src/wait.rs:140-147 | a waker that has drained the queue can always go on to its next `unblock` |
| `WaitEffects.EnqueuedSleeps` | kernel/src/wait.rs:46-58 | a queued waiter whose wake has not come since it armed itself gives up the CPU and is Blocked; one whose wake has come returns at once |
| `WaitEffects.WaitBlocks` | kernel/src/wait.rs:46-58 | a wait on a condition that holds, undisturbed, can take every one of its steps and ends queued, Blocked and asleep |
| `WaitEffects.LeavesOnlyWoken` | kernel/src/wait.rs:46-58 | in every run, a thread whose check told it to block is back outside the call only after it armed itself and, since then, an `unblock` of it stored its wake or took the lock |
| `WaitEffects.LeavesOnlyFreshlyWoken` | kernel/src/wait.rs:46-58 | if no `unblock` of it was in flight when it armed itself, then one stored its wake since |
| `FreshWake.FreshExactly` | kernel/src/sched.rs:538-566 | of a thread that has just armed itself, in any state of any run: every continuation wakes it only by a wake stored since, if and only if no `unblock` of it is in flight |
| `LateWake.LeavesLateWoken` | kernel/src/sched.rs:538-566 | for every condition that can hold there is a run in which a thread told to block leaves, the condition still true, with no wake of it stored since its check |
| `Event.OpsAlwaysAllowed` | kernel/src/wait.rs:232-247 | a thread outside a call on the event can signal or reset it at any moment |
| `Event.StrandsNobody` | kernel/src/wait.rs:232-276 | if a manual-reset event is signalled and a thread is parked in its wait, some signaller has yet to drain or unblock |
| `Event.SignalLasts` | kernel/src/wait.rs:232-247 | after a signal and without a reset the event stays signalled |
| `Event.SignalReleasesEveryone` | kernel/src/wait.rs:232-276 | once every signaller is done, with no reset since, nobody is parked |
| `Pipe.ApplyKeeps` | kernel/src/file.rs:297-399 | each pipe operation keeps "accepted equals delivered plus buffered" and the capacity, and only extends both streams |
| `Pipe.StreamPreserved` | kernel/src/file.rs:338-399 | in every run, bytes accepted are bytes delivered followed by bytes buffered, in order, and the buffer holds at most 64 KiB |
| `Pipe.ReadsFollowWrites` | kernel/src/file.rs:338-399 | in every state of every run the prefixes the writes counted as done, one pass after the other, are the bytes the reads handed out followed by the bytes buffered |
| `Pipe.WriteTakesPrefix` | kernel/src/file.rs:376-399 | however other writers come in between, the passes of one `write` put exactly the prefix of its data into the stream that it counts as done |
| `Pipe.EndsClose` | kernel/src/file.rs:325-336 | each side has its end until it is closed and not after |
| `Pipe.EofIsFinal` | kernel/src/file.rs:339-360 | end of file is reported only when everything accepted was delivered, and never withdrawn |
| `Pipe.BrokenIsFinal` | kernel/src/file.rs:376-399 | once the last read end is gone nothing more is delivered and it stays gone |
| `Pipe.PipeStrandsNobody` | kernel/src/file.rs:325-399 | a reader or writer parked although its condition has become false has a wake in flight |
| `Pipe.PipeInner.ReadLocked` | kernel/src/file.rs:339-360 | the locked part of `read` on the pipe's fields: the oldest bytes, as many as fit, go from the buffer to the caller and nothing else changes; when it reports end of file and when it would block |
| `Pipe.PipeInner.WriteLocked` | kernel/src/file.rs:376-399 | the locked part of `write` on the pipe's fields: the front of the data, as much as there is space for, is appended to the buffer and counted, and nothing else changes; when it reports a broken pipe and when it would block |
| `LockOrder.CallsDisciplined` | kernel/src/wait.rs:29-206 | every wait and wake call, for every list of queues with repeats, takes only locks above all it holds and ends with none |
| `LockOrder.CallTakes` | kernel/src/wait.rs:29-206 | how often each call takes each lock: a blocking wait asks the scheduler three times, enqueues under its queue and cleans up once per handle; a wake locks its queue once and the scheduler once per thread woken |
| `LockOrder.AllHeldAtOnce` | kernel/src/wait.rs:165-190 | a multi-wait evaluates its condition and marks itself blocking while it holds every queue of its list at once |
| `LockOrder.RankedAscends` | kernel/src/wait.rs:171-173 | sorting and deduplicating gives the same queues in strictly ascending order |
| `LockOrder.NoCircle` | kernel/src/wait.rs:80-206 | in every interleaving of any calls no chain of threads spinning on each other's locks closes |
| `LockOrder.NoDeadlock` | kernel/src/wait.rs:80-206 | while anybody is unfinished, somebody can move |
| `LockOrder.WaitLayerNeverDeadlocks` | kernel/src/wait.rs:29-206 | any number of threads making any sequence of wait-layer calls never deadlock |
| `Timer.Clock.Tick` | kernel/src/timer.rs:44-61 | a tick wakes exactly the sleepers whose deadline has come; nobody is lost, early or woken twice |
| `Timer.Clock.Disarm` | kernel/src/timer.rs:73-78 | drops one entry of the thread if it has one and nobody else's |
| `MultiWait.EnqueuedOnce` | kernel/src/wait.rs:170-190 | a multi-wait stands in each of its queues exactly once, repeated handles included, and in no other |
| `MultiWait.CallKeeps` | kernel/src/wait.rs:165-206 | at every moment of the call, from any world and whatever others do, each queue the thread stands in was entered before or still has its removal ahead, and so has the wheel entry |
| `MultiWait.NothingAdded` | kernel/src/wait.rs:165-206 | a multi-wait that returns stands in none of its queues, in no other it did not stand in before, and has no wheel entry more |
| `MultiWait.NothingLeftBehind` | kernel/src/wait.rs:196-205 | so a thread that entered with no entry elsewhere has left none anywhere |
| `MultiWait.CleanExactly` | kernel/src/wait.rs:165-206 | "in no queue and not on the wheel" holds at every return of every interleaving if and only if the thread entered with no entry outside the list and none on the wheel |
| `MultiWait.StaleEntryStays` | kernel/src/wait.rs:46-58 | an entry `wait_if` left behind is still there after a multi-wait on another queue |
| `Bpe.ApplyLoop` | ml/train/bpe.py:27-38 | the loop computes the left-to-right replacement of a pair |
| `Bpe.ApplyAbsent` | ml/train/bpe.py:27-38 | a pass changes nothing if and only if the pair does not occur, and otherwise shortens the list |
| `Bpe.ApplyPairs` | ml/train/bpe.py:27-38 | a pass creates no pair of old ids that was not there, and removes its own |
| `Bpe.ApplyAfterLeftmost` | ml/train/bpe.py:27-38 | replacing the leftmost occurrence first does not change the result of the pass |
| `Bpe.ChunksCover` | ml/train/bpe.py:24 | chunking loses no byte and invents none, and its pieces are not empty, each all whitespace (9 to 13 or 32) or all not, with neighbours of different classes |
| `Bpe.ChunksUnique` | ml/train/bpe.py:24 | any pieces with these properties are the chunks of what they concatenate to |
| `BpeTrainer.TableCounts` | ml/train/bpe.py:44-54 | counting over distinct chunks with multiplicities equals counting over the whole corpus, after any merges |
| `BpeTrainer.PickBest` | ml/train/bpe.py:60-69 | the lazy heap yields the pair with the highest current count, smallest on ties, or shows there is none |
| `BpeTrainer.RewriteWord` | ml/train/bpe.py:74-85 | rewriting one word keeps counts and reverse index exact and records every pair it touched |
| `BpeTrainer.MergeRound` | ml/train/bpe.py:71-85 | one round over the reverse index rewrites every word as the pass over all words would |
| `BpeTrainer.PushTouched` | ml/train/bpe.py:86-89 | afterwards the heap holds a current entry for every pair counted at least twice |
| `BpeTrainer.TrainBpe` | ml/train/bpe.py:41-93 | the incremental trainer returns exactly the merges of the trainer that recounts the corpus every round |
| `BpeTrainer.LearnedShape` | ml/train/bpe.py:58-93 | learned merges use earlier ids only, are pairwise distinct and stay within the target |
| `BpeCodec.MakeTokenizer` | ml/train/bpe.py:99-105 | construction succeeds exactly on merge lists that use earlier ids, and then the expansion table is right |
| `BpeCodec.EncodeChunkLoop` | ml/train/bpe.py:131-144 | the loop computes lowest-rank-leftmost merging and terminates, as each merge shortens the list |
| `BpeCodec.BestIsLowestLeftmost` | ml/train/bpe.py:135-140 | the scan finds the lowest rank, leftmost, if any pair has a rank |
| `BpeCodec.EncodeIsPasses` | ml/train/bpe.py:131-144 | for distinct merges using earlier ids, encoding equals one pass per merge in order |
| `BpeCodec.EncodeKeepsMeaning` | ml/train/bpe.py:131-151 | encoding a chunk does not change what it decodes to |
| `BpeCodec.EncodeLoop` | ml/train/bpe.py:125-129 | encoding works chunk by chunk: the concatenation of the encodings of the runs of whitespace and of everything else |
| `BpeCodec.DecodeLoop` | ml/train/bpe.py:146-151 | decoding concatenates expansions and skips unknown ids |
| `BpeCodec.RoundTrip` | ml/train/bpe.py:125-151 | decode of encode is the identity on every byte string, and every id is below the vocabulary size |
| `BpeTheorems.TrainedMergesOk` | ml/train/bpe.py:41-93 | what training returns always meets the codec's conditions |
| `BpeTheorems.EncodingIsTrainedSegmentation` | ml/train/bpe.py:71-144 | encoding a training chunk gives the trainer's own final segmentation of it |
| `BpeTheorems.TrainAndRoundTrip` | ml/train/bpe.py:41-151 | training, building, encoding and decoding give any text back |
| `Ext2Disk.LeRoundTrip` | kernel/src/ext2.rs:98-103 | little-endian words of any width read back as written |
| `Ext2Alloc.FlipKeepsCounts` | kernel/src/ext2.rs:380-441 | flipping one block bit and moving the group and superblock counters keeps all counters equal to the clear bits |
| `Ext2Counts.CountsAreSums` | kernel/src/ext2.rs:380-463 | whenever counters agree with the bitmaps, the superblock counts are the sums of the group counts, for blocks and inodes |
| `Ext2Alloc.GroupHolds` | kernel/src/ext2.rs:405-430 | a block number lies in the group it is filed under, the last short group included |
| `Ext2Alloc.WriteBlock` | kernel/src/ext2.rs:364-366 | writes one block sector by sector and nothing else |
| `Ext2Alloc.TakeBit` | kernel/src/ext2.rs:392-402 | takes the first clear bit, or shows there is none |
| `Ext2Alloc.AllocBlock` | kernel/src/ext2.rs:405-426 | takes one free block, zeroed, keeps all counters exact, changes nothing else; fails exactly on a full volume, changing nothing |
| `Ext2Alloc.FreeBlock` | kernel/src/ext2.rs:428-441 | frees one block with exact counters; a free block stays free and moves no counter |
| `Ext2Inodes.InodeFlipKeepsCounts` | kernel/src/ext2.rs:445-463 | the same exactness for inode bits and their counters |
| `Ext2Inodes.AllocInode` | kernel/src/ext2.rs:445-463 | takes one free inode, blanked, counters exact, no block touched; the used-directory count of its group, and of no other, goes up exactly for a directory; fails exactly when all are in use |
| `Ext2Inodes.FreeInode` | kernel/src/ext2.rs:841-862 | gives one inode back, counters exact, and moves no counter if it was free already; the used-directory count of its group, and of no other, goes down exactly for a directory |
| `Ext2Free.FreeAllBlocks` | kernel/src/ext2.rs:487-516 | frees exactly the blocks the inode owns, across all three pointer levels |
| `Ext2Layout.FillRun` | kernel/src/ext2.rs:520-587 | a run of fresh blocks holds the next chunks of the data, in order; succeeds exactly when that many blocks are free |
| `Ext2Layout.PackPtrs` | kernel/src/ext2.rs:520-587 | pointers packed into an indirect block read back, zero beyond them |
| `Ext2Write.LayOutData` | kernel/src/ext2.rs:520-587 | succeeds exactly when the length is within 12 + n + n^2 blocks and the blocks it needs are free; then the data sits in blocks that were free, over direct, indirect and double-indirect levels, and `i_blocks` counts them all in sectors; a failure has taken the stated blocks and changed nothing else |
| `Ext2Write.NeedIs` | kernel/src/ext2.rs:520-587 | the blocks taken level by level are the data blocks, one for the indirect level, and one plus one per started run for the double-indirect level |
| `Ext2Write.WrapFits` | kernel/src/ext2.rs:520-587 | 2^32 bytes with 4 KiB blocks are within the limit and take 1049601 blocks |
| `Ext2Shape.OwnedIsAll` | kernel/src/ext2.rs:487-587 | what freeing visits is exactly what laying out took |
| `Ext2Shape.MapIsData` | kernel/src/ext2.rs:225-268 | `block_map` inverts `lay_out_data` across all three levels |
| `Ext2Write.ReadsBack` | kernel/src/ext2.rs:173-192 | a written file reads back as its data if and only if the length fits the 32-bit size field |
| `Ext2Read.ReadBlockMap` | kernel/src/ext2.rs:225-268 | the capped pointer walk computes the block map, holes and missing levels included |
| `Ext2Read.RangeIsBlocks` | kernel/src/ext2.rs:82-96 | a byte range of whole blocks is those blocks |
| `Ext2Read.ReadBlocks` | kernel/src/ext2.rs:270-294 | one disk read per run of consecutive blocks gives the same bytes as reading block by block |
| `Ext2Read.ReadFile` | kernel/src/ext2.rs:270-294 | the run-coalescing read returns the file's bytes, cut at its size |
| `Ext2Owners.MapOwned` | kernel/src/ext2.rs:225-268 | a file reads only blocks it owns |
| `Ext2Owners.FileFrame` | kernel/src/ext2.rs:199-294 | a change outside the blocks a file owns changes neither its bytes nor what it owns |
| `Ext2Crash.UntouchedRun` | kernel/src/ext2.rs:405-587 | after every prefix of the writes that fill new blocks, nothing that was in use has changed |
| `Ext2Crash.OverwriteAtomic` | kernel/src/ext2.rs:675-714 | after every prefix of an overwrite's sector writes the file reads as exactly its old contents, up to the inode patch, or exactly its new ones from it on; every other file is unchanged; no block of a live inode is free or shared |
| `Ext2Overwrite.OverwriteDone` | kernel/src/ext2.rs:683-714 | a completed overwrite leaves the volume well formed: nothing leaked, nothing shared, nobody else's file changed |
| `Ext2Overwrite.SpillMounted` | kernel/src/ext2.rs:520-587 | blocks a failed attempt has taken belong to nobody, and apart from them the volume is well formed and every file as it was |
| `Ext2Overwrite.Overwrite` | kernel/src/ext2.rs:675-714 | succeeds exactly when there is room for the new data beside the old; success, failure and every crash state in between: old or new contents, nobody else changed, mode, owner and links kept |
| `Ext2Sectors.Device.ReadRange` | kernel/src/ext2.rs:82-96 | reading an arbitrary byte range through whole sectors, 64 at a time, returns that range |
| `Ext2Sectors.Device.WriteRange` | kernel/src/ext2.rs:127-154 | afterwards exactly the range has changed, and every state on the way has some leading sectors new and the others old |
| `Ext2Sectors.OneSectorAtomic` | kernel/src/ext2.rs:687-700 | a change confined to one sector is all there or not at all |
| `Ext2Sectors.OneByteDiffers` | kernel/src/ext2.rs:392-441 | rewriting a whole bitmap block of which one byte differs is such a change |
| `Ext2Sectors.InodeWithinSector` | kernel/src/ext2.rs:465-470 | an inode never straddles a sector |
| `Ext2Sectors.PatchIsAtomic` | kernel/src/ext2.rs:472-477 | while an inode is patched the disk always holds the old inode or the new one, and nothing else changes |
| `Ext2Records.WrittenRec` | kernel/src/ext2.rs:623-627 | a directory record reads back as written |
| `Ext2Records.EditChain` | kernel/src/ext2.rs:590-659 | editing inside one stretch of a record chain leaves the records before and after it |
| `Ext2Dir.InsertInBlock` | kernel/src/ext2.rs:607-632 | the first record with room takes the entry, through gap reuse or split; the chain stays well formed; fails exactly when no record has room |
| `Ext2Dir.InsertBinds` | kernel/src/ext2.rs:602-633 | inserting a fresh name adds exactly that binding and keeps names unique |
| `Ext2Dir.InsertTags` | kernel/src/ext2.rs:590-633 | the new record is the only one added, with its kind, and every other says what it said |
| `Ext2Dir.InsertFails` | kernel/src/ext2.rs:609-632 | no room means no record has enough |
| `Ext2Dir.RemoveFromBlock` | kernel/src/ext2.rs:809-835 | the matching record is swallowed by the one before it or becomes a gap; the chain stays well formed |
| `Ext2Dir.RemoveUnbinds` | kernel/src/ext2.rs:801-838 | removing deletes exactly one binding, returns its inode, and fails exactly when the name is absent |
| `Ext2Dir.RemoveTags` | kernel/src/ext2.rs:801-838 | the record of that name is the only one that goes, and every other says what it said |
| `Ext2Dir.LookupInData` | kernel/src/ext2.rs:296-312 | the scan over the directory's bytes finds the first live record of the name |
| `Ext2Dir.LookupIsDict` | kernel/src/ext2.rs:296-312 | scanning is asking the map |
| `Ext2Names.DataIsRecs` | kernel/src/ext2.rs:296-312 | the blocks of a directory, read as one file, are one record chain |
| `Ext2Names.Lookup` | kernel/src/ext2.rs:296-312 | looking a name up on the volume returns its binding |
| `Ext2Names.EditDir` | kernel/src/ext2.rs:590-659 | rewriting one block of a directory edits that directory's names and nothing else on the volume |
| `Ext2Entries.DirInsert` | kernel/src/ext2.rs:590-659 | adds exactly one binding, of the kind asked for, in a gap or a fresh block; the volume stays well formed and every other file the same; fails, changing nothing, exactly when no record has room and there is no slot or no free block for a fresh one |
| `Ext2Entries.DirRemove` | kernel/src/ext2.rs:801-838 | deletes exactly one binding and returns it, or shows the name is absent and changes nothing |
| `Ext2Adopt.AdoptKeeps` | kernel/src/ext2.rs:675-769 | an inode that gains free blocks leaves the volume well formed and everybody else's file the same |
| `Ext2Adopt.RetireKeeps` | kernel/src/ext2.rs:865-915 | so does an inode that goes away with its blocks |
| `Ext2Links.BumpLinks` | kernel/src/ext2.rs:479-484 | changes the link count and nothing else |
| `Ext2Links.RelinkKeeps` | kernel/src/ext2.rs:479-484 | such a patch keeps the file's bytes, the volume and everybody else |
| `Ext2Links.Discard` | kernel/src/ext2.rs:875-877 | freeing blocks, then the inode, leaves a well-formed volume without it; its record keeps its pointers and its mode, and its group counts one directory less exactly if it was one |
| `Ext2Ops.CreateFile` | kernel/src/ext2.rs:715-721 | a new file is named, by a record that says it is a file, reads as the data, has the record of a new file and owns fresh blocks; succeeds exactly when an inode is free and the directory takes the name; a failure leaves every file as it was and what it took unnamed; no directory is counted |
| `Ext2Ops.WriteFile` | kernel/src/ext2.rs:675-725 | overwrite or create: succeeds exactly when the name is short enough, the data has room and, for a new name, an inode is free and the directory takes it; the named file reads as the data, nobody else's file changes; every crash state of an overwrite shows old or new contents |
| `Ext2Tree.Unlink` | kernel/src/ext2.rs:865-883 | removes the name, and the file with its last link; fails, changing nothing, exactly when the name is missing or a directory |
| `Ext2Tree.IsEmptyDir` | kernel/src/ext2.rs:894-908 | the check finds exactly the directories with nothing but `.` and `..` |
| `Ext2Tree.Rmdir` | kernel/src/ext2.rs:886-915 | removes an empty directory with its inode and block, and a link of its parent; fails, changing nothing, exactly when the name is missing, not a directory or not empty |
| `Ext2Mkdir.DotBlockRecs` | kernel/src/ext2.rs:746-758 | the first block of a directory is a record chain of `.` and `..` |
| `Ext2Mkdir.Mkdir` | kernel/src/ext2.rs:735-769 | adds an empty directory with `.` and `..`, counted in its group, names it in its parent, which gains a link, by a record that says it is a directory, keeps everything else; succeeds exactly when the name is new, an inode and a block are free and the parent takes the name; an existing name changes nothing, and any other failure is stuck at an inode exactly when one was free |
| `Ext2Namespace.BindTree` | kernel/src/ext2.rs:715-721 | naming a new file keeps the directories a tree |
| `Ext2Namespace.BindCounted` | kernel/src/ext2.rs:715-721 | and link counts right |
| `Ext2Namespace.LastLink` | kernel/src/ext2.rs:873-877 | a file with one link has no second name |
| `Ext2Namespace.UnbindTree` | kernel/src/ext2.rs:865-883 | taking a file's name away, and the file with its only one, keeps the tree |
| `Ext2Namespace.UnbindCounted` | kernel/src/ext2.rs:865-883 | and link counts right |
| `Ext2Namespace.PlantTree` | kernel/src/ext2.rs:735-769 | a new empty directory keeps the tree: it is filed under its `..` and reaches the root |
| `Ext2Namespace.PlantCounted` | kernel/src/ext2.rs:763-767 | two links for the new directory and one more for its parent keep link counts equal to the number of names |
| `Ext2Namespace.PruneTree` | kernel/src/ext2.rs:886-915 | removing an empty directory by its name keeps the tree: nothing else named it |
| `Ext2Namespace.PruneCounted` | kernel/src/ext2.rs:910-914 | and one link less for the parent keeps the counts |
| `Ext2Volume.EmptyVolumeOk` | kernel/src/ext2.rs:350-357 | an accounted-for volume whose root holds only its dots is well formed: where runs start |
| `Ext2Volume.TreeHome` | kernel/src/ext2.rs:350-357 | every directory of a well-formed volume is fit for every operation below it |
| `Ext2Volume.SpiltKeeps` | kernel/src/ext2.rs:681-721 | a failed write or mkdir leaves a well-formed volume, with what it took in use and unnamed |
| `Ext2Volume.CreatedKeeps` | kernel/src/ext2.rs:715-721 | creating a file leaves a well-formed volume |
| `Ext2Volume.UnlinkedKeeps` | kernel/src/ext2.rs:865-883 | unlinking does, and when the inode goes no name is left for it anywhere |
| `Ext2Volume.MadeKeeps` | kernel/src/ext2.rs:735-769 | making a directory does |
| `Ext2Volume.RemovedExactly` | kernel/src/ext2.rs:886-915 | removing a directory does if and only if it is not called by its own dots, which is when it is not the directory it was looked up in |
| `Ext2Volume.RemovedHome` | kernel/src/ext2.rs:886-915 | whatever the tree looks like, a directory is fit for further operations after a removal if and only if it is not the removed one and has no other name for it |
| `Ext2Volume.RemovedByDot` | kernel/src/ext2.rs:886-915 | after removing `.` the directory above names a freed inode that still points at its freed blocks |
| `Ext2Image.ImageDir` | kernel/src/ext2.rs:683-714 | an overwritten inode is a well-formed directory if and only if the data is that of one, and then has the names in it, with their kinds |
| `Ext2Image.RewroteExactly` | kernel/src/ext2.rs:683-714 | overwriting leaves a well-formed volume if and only if the target is no directory or the data a directory that fits the tree |
| `Ext2Image.OverwrittenDirectory` | kernel/src/ext2.rs:675-714 | one byte written over a directory destroys it |
| `Ext2Runs.StepExactly` | kernel/src/ext2.rs:675-915 | any operation in a directory of the tree, successful or not, leaves a well-formed volume if and only if it neither overwrites a directory nor removes one by its dots |
| `Ext2Runs.RunExactly` | kernel/src/ext2.rs:675-915 | over every sequence of operations the volume is well formed throughout if and only if every one of them is of that kind |
| `Ext2Runs.Perform` | kernel/src/ext2.rs:675-915 | the calls are such steps |
| `Ext2Tally.TallyExactly` | kernel/src/ext2.rs:445-463 | any operation, successful or not, keeps every group's used-directory count equal to its directories in use, in 16 bits, if and only if it is not a `mkdir` of a new name with a free inode but no free block |
| `Ext2Tally.RunTally` | kernel/src/ext2.rs:675-915 | over every sequence of harmless operations the counts are right throughout if and only if none is of that kind |
| `Ext2Types.TypesExactly` | kernel/src/ext2.rs:590-599 | any harmless operation leaves every record of every directory telling the kind of its inode (2 for a directory, 1 for a file, 0 on a volume without the feature) if and only if it writes no false record over a directory |
| `Ext2Types.RunTypes` | kernel/src/ext2.rs:675-915 | over every sequence of harmless operations the records are true throughout if and only if no operation does that |
| `Registry.SubAtEnd` | kernel/src/registry.rs:169-175 | find-or-create in an ordered map, at its end |
| `Registry.RunUnder` | kernel/src/registry.rs:169-175 | changes addressed below a child change that child only |
| `Registry.Rebuilt` | kernel/src/registry.rs:397-421 | replaying a tree's own changes on an empty key gives the tree |
| `RegistryPaths.ComponentsOfJoin` | kernel/src/registry.rs:136-146 | splitting a joined path gives its components, less a leading `registry` |
| `RegistrySpelling.SplitAtSeparator` | kernel/src/registry.rs:136-146 | a slash or a backslash separates: what stands before it and after it is split on its own |
| `RegistrySpelling.SplitName` | kernel/src/registry.rs:136-146 | what has no separator is one name, lower-cased, and nothing is no name |
| `RegistrySpelling.RegistryIsOptional` | kernel/src/registry.rs:133-146 | a leading `registry`, in any case, is dropped |
| `RegistrySpelling.ComponentsClean` | kernel/src/registry.rs:136-146 | no component of any path is empty or contains a slash, a backslash or a capital letter |
| `RegistrySpelling.SpellingIsFree` | kernel/src/registry.rs:136-146 | paths that differ in letter case and in the choice of separators only have the same components |
| `RegistrySpelling.LowerSame` | kernel/src/registry.rs:276-296 | value names are the same if and only if they differ in letter case only |
| `RegistryPaths.WalkMatch` | kernel/src/registry.rs:397-421 | the lines of a walk parse to the tree's own changes, less a leading `registry` |
| `RegistryHive.RegistryLost` | kernel/src/registry.rs:136-146 | a tree with a root child called `registry` is never rebuilt |
| `RegistryHive.HiveRecords` | kernel/src/registry.rs:397-458 | the records of a hive rebuild it if and only if it has no such child |
| `RegistryText.HexRoundTrip` | kernel/src/registry.rs:460-483 | hexadecimal fields read back, the empty one included |
| `RegistryText.DecRoundTrip` | kernel/src/registry.rs:397-458 | 32-bit numbers read back |
| `RegistryParse.UnhexExactly` | kernel/src/registry.rs:472-483 | a field reads as given bytes if and only if it is a dash and there are none, or it is their pairs of hexadecimal digits, in either case, or of a plus sign and one digit |
| `RegistryParse.NumberExactly` | kernel/src/registry.rs:432-448 | a field reads as a number if and only if that is below 2^32 and the field its decimal form, perhaps with leading noughts and a plus sign |
| `RegistryParse.LinesNext` | kernel/src/registry.rs:425-426 | a line ends at a newline, less a carriage return in front of it, and the rest is split on its own |
| `RegistryParse.LinesLast` | kernel/src/registry.rs:425-426 | what follows the last newline is a line as it is, unless it is empty |
| `Utf8.ValidExactly` | kernel/src/registry.rs:424-486 | a byte string is well-formed UTF-8 if and only if it is the encoding of some sequence of Unicode scalar values |
| `RegistryText.LineRoundTrip` | kernel/src/registry.rs:397-458 | every line parses back to its record and contains no line break |
| `RegistryText.FileRecords` | kernel/src/registry.rs:397-458 | the file splits into the header, which is skipped, and the records |
| `RegistryText.Deserialize` | kernel/src/registry.rs:423-458 | the line loop replays the parsed records on the given key; a file that is not UTF-8 changes nothing, and a line with a string field that is not is skipped |
| `RegistryText.HiveRoundTrip` | kernel/src/registry.rs:397-487 | a hive written and parsed into an empty key comes back exactly if and only if no direct child of its root is called `registry` |
| `RegistryText.RegistryKeyIsLost` | kernel/src/registry.rs:136-146 | the smallest hive that does not come back |
| `RegistryLive.PiecesText` | kernel/src/registry.rs:136-146 | splitting well-formed text at separators gives well-formed pieces |
| `RegistryLive.ComponentsNormal` | kernel/src/registry.rs:136-146 | the components of any path are non-empty lower-case text without separators |
| `RegistryLive.ModifyKeeps` | kernel/src/registry.rs:169-175 | find-or-create followed by a change keeps the tree ordered and normalised |
| `RegistryLive.LoadedKept` | kernel/src/registry.rs:368-387 | whatever bytes a hive file holds, what it loads as is ordered and normalised |
| `RegistryLive.EditKeeps` | kernel/src/registry.rs:192-327 | creating a key with an owner, setting a value, deleting a key and loading a hive keep the tree ordered and normalised; what they do to it is in the `RegistryQuery` rows |
| `RegistryQuery.FindIs` | kernel/src/registry.rs:176-182 | `find` finds exactly the key that entries of these names lead to |
| `RegistryQuery.ValueIs` | kernel/src/registry.rs:294-302 | `query_value` returns exactly the value recorded under that name on that key |
| `RegistryQuery.PutReads` | kernel/src/registry.rs:276-291 | `set_value` on an existing key gives that name there that type and data; every other name, key and owner is as before; on a missing key nothing changes |
| `RegistryQuery.PutThenQuery` | kernel/src/registry.rs:276-302 | a query after it, under any spelling of path and name, returns what was put if it means the same value and what it returned before otherwise |
| `RegistryQuery.CreateReads` | kernel/src/registry.rs:200-216 | `create_owned` makes the path and what is missing above it, owned by the caller; old keys keep their owner, and no value changes |
| `RegistryQuery.DeleteReads` | kernel/src/registry.rs:306-328 | `delete_key` takes away the key and everything below it and nothing else; the root stays |
| `RegistryQuery.LoadReads` | kernel/src/registry.rs:368-387 | after a hive is loaded there is, at its root and below, exactly what the file loads as; above it missing keys are made, and nothing else changes |
| `RegistryQuery.RecordReads` | kernel/src/registry.rs:423-458 | what one record of a file does to every key, owner and value |
| `RegistryQuery.ReadsDecide` | kernel/src/registry.rs:176-302 | two trees built by these operations are equal if and only if every query of owners and values agrees |
| `RegistryQuery.NothingToDo` | kernel/src/registry.rs:200-328 | creating an existing key and deleting a missing one leave the very same tree |
| `RegistryQuery.DeleteUndoesCreate` | kernel/src/registry.rs:200-328 | deleting a key just created below an existing one gives the tree of before |
| `RegistryLive.LiveRoundTrip` | kernel/src/registry.rs:346-458 | any hive of a registry built by any sequence of these comes back from its file if and only if it has no direct child called `registry` |
| `RegistryLive.LostHiveReachable` | kernel/src/registry.rs:200-216 | creating that child is all it takes |
| `XhciRing.PushKeeps` | kernel/src/xhci.rs:89-103 | a push that overwrites nothing unread keeps the ring invariant, across the Link |
| `XhciRing.LookFinds` | kernel/src/xhci.rs:78-103 | the controller finds the next unread entry if there is one, and nothing otherwise |
| `XhciRing.ReadKeeps` | kernel/src/xhci.rs:78-103 | reading, through the Link too, keeps the ring invariant |
| `XhciRing.ExactlyOnce` | kernel/src/xhci.rs:78-103 | in every state of every run the entries read are a prefix of the entries pushed |
| `XhciRing.NextIsRead` | kernel/src/xhci.rs:78-103 | while something is unread, one look, or two across the Link, reads the next entry |
| `XhciRing.LinkLapped` | kernel/src/xhci.rs:93-101 | re-stamping a Link the controller has not passed stalls it in front of unread entries |
| `XhciRing.SlotLapped` | kernel/src/xhci.rs:89-92 | overwriting the entry the controller should read next hides everything unread |
| `XhciRing.RoomExactly` | kernel/src/xhci.rs:89-103 | after a push the controller still comes to the oldest unread entry if and only if there was room: a slot is free, and not the last one while the controller stands in front of the Link |
| `XhciRing.StallReached` | kernel/src/xhci.rs:78-103 | a run, every push of which had room, one push before the controller stalls in front of 255 unread entries |
| `XhciRing.RoomEnough` | kernel/src/xhci.rs:89-103 | so fewer than 254 unread entries always leave room |
| `XhciRing.Ring.PushTrb` | kernel/src/xhci.rs:89-103 | the driver's in-place push is the push of the model |
| `XhciEvents.PollFinds` | kernel/src/xhci.rs:115-119 | `poll` returns the oldest unread event if there is one, and nothing otherwise |
| `XhciEvents.EventsExactlyOnce` | kernel/src/xhci.rs:107-130 | in every state of every run `poll` has returned every event exactly once and in order |
| `XhciEvents.EventRing.PollTrb` | kernel/src/xhci.rs:115-129 | the driver's poll is the poll step of the machine: it returns the oldest unread event if there is one, advances by one and reports the new dequeue pointer |

## Left out

- Auto-reset events, semaphores, mutants and timed waits as signal conservation: a popped waiter can report a timeout, so no such law holds for them.
- Timed waits and waits on several queues are modelled for locking and for clean-up, not as further wake sources of the scheduler machine; that nobody is stranded is proved for waits on one queue.
- Memory orderings weaker than sequential consistency, interrupts that arrive while a lock is held, page tables, segment registers and the assembly stubs.
- What `reap` does besides freeing the stack (tearing down the address space) is an opaque step.
- Pipe locking: the buffer lock is taken under the queue lock by the wait condition; it is not among the locks of `LockOrder`.
- ext2 bitmaps, group descriptors, the superblock and inode records are typed values; their byte layout is not modelled, except that patching an inode or one byte of a bitmap stays within a sector.
- ext2 geometry: block sizes are 1024, 2048 or 4096 bytes, bitmaps fit one block, and all numbers fit 32 bits.
- ext2 paths: walking a path to its parent directory, permissions, `chmod`, `chown`, `read_dir` and symbolic links.
- ext2 backup superblocks and descriptor tables (`sync_backups`).
- ext2 crash states of create, unlink, mkdir and rmdir: their effects are proved for completed calls only, among them a directory block torn between its sectors.
- ext2 failed calls leave what they took allocated, as in the source: blocks nobody owns, or an inode nobody names.
- ext2 directories of more than twelve blocks, and names longer than 255 bytes in `mkdir`: preconditions.
- Ext2Dir.InsertInBlock: the header fields and the name are written by one splice where the source writes them field by field.
- Ext2Inodes.FreeInode: the deletion time stamp is not part of the inode record.
- BpeTrainer.PickBest: the heap is a multiset from which a least entry is taken; its array order is not modelled.
- RegistryText.Deserialize: a field in which two hexadecimal places split a multi-byte character makes the source panic; the model skips the line.
- Registry watches, access checks, enumeration, the lock around the tree, and writing hive files to disk.
- Timer.Clock.Tick: the 64-bit tick counter does not wrap; the scheduler call for each woken thread is its result list.
- XhciRing.Ring.PushTrb: memory is an array of entries; DMA addresses, doorbells and enumeration are not modelled, and pushed entries are not themselves Links.
- The JSON form of a tokenizer, device drivers other than the two rings, PE and NT loading, consoles, daemons, installers and training code outside the tokenizer.
