# A verified model of the file synchronisation system

The system copies directories between machines. An `nfs_manager` keeps a store of
synchronisation pairs, asks the source client of each new pair for a listing, and turns
every name into a job for a bounded pool of worker threads. A worker relays one file: it
sends PULL to the source client and PUSH to the target client. This project models those
parts in Dafny and proves properties of every run, every interleaving and every way the
network may cut the data.

## What is modelled

* **The pool** (`src/thread_pool.c`) twice. `JobQueue` is the linked list on the heap, one
  method for each piece of code a thread runs while it has the mutex. `WorkerPool` is a
  transition system over any number of producers, workers and shutting-down threads, each
  with a program counter: lock, loop test, sleep and release, wake (also spuriously), link
  or unlink, signal, broadcast, unlock. `PoolSections` shows that the steps of one thread
  between lock and unlock add up to the heap methods. `PoolSafety`, `PoolWakeups`,
  `PoolLiveness`, `PoolConservation` and `PoolDestruction` hold the invariants and the theorems.
* **A file on its way** (`sync_single_file` with `handle_pull_command` and
  `handle_push_command`). `Relay` is a transition system of three parties and two streams;
  `RelaySafety` and `RelayEndToEnd` prove conservation, the outcome and termination.
  `Transfers` and `FileServer` are the handlers as imperative methods, and `ServerRuns`
  covers the whole life of a receiving client.
* **The whole system**: `Fleet` puts the manager's thread, any number of workers and any
  number of clients together; `FleetSafety` and `FleetJobs` hold the invariant, `FleetRuns`
  and `FleetSchedules` what runs come to, `FleetCopies` what is on the disks. The system can
  deadlock, and they say exactly when.
* **The store and the manager** (`src/sync_info.c`, `src/nfs_manager_logic.c`). `SyncStore`
  is the linked list on the heap, `SyncEntries` its meaning, `Manager` the handlers and
  loops on mutable state, `ManagerRuns` every run of commands, `ConcurrentCommands` the
  separate critical sections of callers that run at once. `ManagerJobs` says whose files the
  accepted jobs copy, `ManagerTexts` what console messages and configuration lines mean.
* **The texts** (`src/utils.c` and the protocol). `CText` gives the C99 library functions
  (`strchr`, `strtok`, `sscanf`, `atoi`, `strncpy`; ISO/IEC 9899:1999, sections 7.21.5.2,
  7.21.5.8, 7.19.6.7, 7.20.1.2, 7.21.2.4) as functions on sequences; `DirectorySpec` and
  `Wire` state what can be sent and read back, with both directions of each condition.

Bytes are `char`; a C string is a sequence without the character 0. Waiting on a condition
variable follows POSIX.1-2017: a signal wakes any one sleeper if there is one, and a sleeper
may wake by itself. Fields that only record history (`accepted`, `dequeued`, `processed`,
`freed`, `started`, `winner`) are not in the program.

## Assumptions

* A command reaches the `recv` of a client's command loop whole and alone; payload may be
  cut anywhere. Without this the PUSH protocol has no framing to reason about.
* The PULL header is written by one complete `send`. The relay's first read may still cut
  it anywhere: a read that misses part of it makes the transfer return -1 and send nothing
  (`RelayEndToEnd.RefusedTransfer`).
* The relay's sends are complete, as the code ignores their results. The sends of the PULL
  loop may be partial or fail.
* A source file does not change during its transfer, opening the target file for writing
  succeeds, and a client serves one connection at a time (`src/nfs_client.c:25-43`).
* `Relay` takes both clients as serving this transfer, and the pool modules take the
  processing of a job as something that always returns. Neither is so in every run of the
  whole system: `FleetRuns` says when, for streams that never fill up (a target that is still
  busy takes its bytes in later).
* The path of a target file is one word: not empty and without white space
  (`Wire.PushRoundTripIff`). With any other file name the target misreads the PUSH commands.
* Capacity and number of workers are at least 1
  (`src/nfs_manager_logic.c:39`, `src/nfs_manager_logic.c:51`).

## Where the code and its documentation differ

* `include/thread_pool.h:104` promises 0 on success. The code also returns 0 when the source
  stream ends early (`src/thread_pool.c:327-337`). `RelayEndToEnd.SuccessWithoutCopy` gives
  such a run for every non-empty file, and `RelayEndToEnd.FinishedTransfer` says exactly when
  the copy is complete.
* `include/sync_info.h:122-123` speaks of a future reactivation of a cancelled pair. No code
  reactivates: adding the pair again answers "already there" and starts nothing
  (`ManagerRuns.StartedAtMostOnce`, `ManagerRuns.PairsAreKept`).
* `include/thread_pool.h:61` says that the dequeue returns null "on shutdown". The code first
  hands out what is still queued (`PoolConservation.LeavesOnlyWhenDrained`).
* A listing is taken from one `recv` of at most 8191 bytes. `Wire.ListingReadIff` says for
  every length of that read whether the names survive, and `Wire.ListingReadShort` what a
  shorter read yields: a shorter list, possibly with its last name cut, and no error.
* A comment in `tests/test_nfs_client.c:320` has an end marker sent for a missing directory
  too. The code returns without sending anything (`src/nfs_client_logic.c:11-15`);
  `Wire.HandleList` says that the marker is sent if and only if the directory can be opened.
  The pair whose listing came back empty stays in the store and cannot be listed again
  (`ManagerRuns.FailedListingIsFinal`).
* `README.md:11` promises automatic synchronisation. A directory with more files than workers
  and queue hold together is never synchronised: the manager keeps the client of the listing
  busy until its last job is queued (`src/nfs_manager_logic.c:123`,
  `src/nfs_manager_logic.c:180`), the workers wait for that client, and the manager waits for
  them. With `-n 2 -b 5` eight files are enough (`FleetRuns.LongListingDeadlocks`). As the
  manager has no other thread, no later command, shutdown included, is handled.
* A directory that cannot be opened stops the manager as well: the client sends nothing and
  keeps the connection (`FleetRuns.MissingDirectoryHangs`).
* `src/thread_pool.c:100-106` frees the pool without waiting for producers or other threads
  that shut it down (`PoolDestruction.UnsafeDestruction`). `nfs_manager` itself has no such
  run, since its main thread is the only producer and the only one to destroy the pool
  (`src/nfs_manager.c:42`, `src/nfs_manager.c:99`, `src/nfs_manager.c:104`):
  `PoolDestruction.SafeWhenAlone`.

## Model

| member | source | states |
|---|---|---|
| `PoolSafety.ShapeStep` | src/thread_pool.c:144-212 | Mutual exclusion over every step: exactly the thread recorded as owner is between lock and unlock |
| `PoolSafety.OnlyTheHolderWrites` | src/thread_pool.c:144-212 | No step of a thread without the mutex changes list, size, flag or the order of jobs |
| `PoolSafety.SafeStep` | src/thread_pool.c:76-212 | Every step keeps mutual exclusion, the bounded FIFO, the meaning of each program counter and the progress of each join loop |
| `PoolSafety.NothingLeftAfterJoin` | src/thread_pool.c:86-98 | Behind the join loop the queue is empty, so the clean-up loop frees no job |
| `PoolWakeups.CreditedStep` | src/thread_pool.c:144-212 | Inductive core: while a worker (producer) sleeps, each queued job (free slot) has an awake thread of its own that will deal with it or owes its signal |
| `PoolWakeups.RousedStep` | src/thread_pool.c:392-400 | After the flag is set a sleeper exists only while the broadcasting thread still has its broadcast to do |
| `PoolLiveness.NoLostWakeup` | src/thread_pool.c:144-212 | In every reachable state with a free mutex before shutdown: a sleeping worker means woken workers cover the queue, a sleeping producer means woken producers cover the free slots |
| `PoolLiveness.StuckOnlyWhenDone` | src/thread_pool.c:156-194 | Deadlock freedom of the pool, given that processing a job always returns: where only a spurious wakeup is possible, nothing is queued, every producer and controller has finished, and the workers have exited or wait for jobs nobody has |
| `PoolLiveness.NobodySleepsAfterBroadcast` | src/thread_pool.c:392-400 | Once a shutdown has released the mutex nobody is asleep, and nobody sleeps in any continuation |
| `PoolLiveness.MeasureFalls` | src/thread_pool.c:76-98 | After shutdown every step of every thread lowers the remaining work |
| `PoolLiveness.RunsAfterShutdownEnd` | src/thread_pool.c:364-408 | A run from a shut-down pool has at most `Measure` steps |
| `PoolConservation.EachJobInOnePlace` | src/nfs_manager_logic.c:154-178 | A job listed once is at each moment with its producer, queued, with one worker, or freed, in exactly one of these places, so it is freed at most once |
| `PoolConservation.QueueIsFifo` | src/thread_pool.c:165-208 | In every reachable state accepted = dequeued ++ queued, and the size field is the length and within the capacity |
| `PoolConservation.LeavesOnlyWhenDrained` | src/thread_pool.c:187-194 | A worker gets null only after shutdown and with an empty queue; a job is refused only after shutdown |
| `PoolConservation.NothingAcceptedAfterShutdown` | src/thread_pool.c:150-163 | No continuation of a shut-down pool accepts a job, whoever was waiting |
| `PoolConservation.ShutdownDrains` | src/thread_pool.c:364-390 | When all workers have exited, every accepted job has been processed exactly as often as it was accepted |
| `PoolConservation.ShutdownEndsClean` | src/thread_pool.c:76-98 | Given that processing a job always returns: a run after shutdown is bounded, and where it ends all threads have finished, all accepted jobs were processed and all listed jobs freed exactly once each (what follows, the freeing of the pool itself, is in the next rows) |
| `PoolDestruction.DestructionIsSafeIff` | src/thread_pool.c:76-107 | Once a destroying thread has freed the pool, no thread ever uses it again if and only if every other thread has finished by then, or is a producer that only has its last, refused job to free |
| `PoolDestruction.SafeWhenAlone` | src/thread_pool.c:76-107 | What a caller can see to: if every producer and every other controller has finished, and nobody else destroys, when the destroying thread begins or at any later time, the destroyed pool is never used again |
| `PoolDestruction.UnsafeDestruction` | src/thread_pool.c:76-107 | The function itself does not see to it: for any number of workers, a destroying thread and a producer with a job to offer have a run in which the producer is left with the freed pool |
| `PoolDestruction.GoneStays` | src/thread_pool.c:100-106 | Threads that are done with the pool stay so in every continuation |
| `PoolConservation.AcceptedIsPrefixOfListing` | src/nfs_manager_logic.c:153-178 | Under any interleaving with shutdowns a producer's accepted jobs are a prefix of its listing, the whole of it if no shutdown came |
| `PoolSections.EnqueueStepsAreASection` | src/thread_pool.c:144-179 | A producer's steps with the mutex have the effect and the outcome of `JobQueue.EnqueueSection` |
| `PoolSections.DequeueStepsAreASection` | src/thread_pool.c:181-212 | A worker's steps with the mutex have the effect and the outcome of `JobQueue.DequeueSection` |
| `Jobs.CreateJob` | src/thread_pool.c:109-136 | A job has the source, target and file name it was created for, as far as they fit its fields; a longer file name is cut to 255 characters |
| `JobQueue.JobQueue.constructor` | src/thread_pool.c:21-26 | A new queue is empty, open and well linked |
| `JobQueue.JobQueue.EnqueueSection` | src/thread_pool.c:149-172 | Waits exactly when full and open, refuses exactly after shutdown, otherwise appends at the tail; the list stays acyclic with correct head, tail and size |
| `JobQueue.JobQueue.DequeueSection` | src/thread_pool.c:187-211 | Waits exactly when empty and open, null exactly when empty and shut down, otherwise takes the oldest node and detaches it |
| `JobQueue.JobQueue.SignalShutdown` | src/thread_pool.c:392-400 | Sets the flag and nothing else |
| `JobQueue.JobQueue.FreeRemaining` | src/thread_pool.c:91-98 | The clean-up loop frees every queued node once, in order |
| `RelaySafety.Step` | src/thread_pool.c:265-341 | One step of any of the three parties, whatever it cuts, keeps the file's bytes complete and in order and `total_transferred` equal to the payload sent on |
| `RelaySafety.RelayFirstStep` | src/thread_pool.c:265-324 | The read that mixes header and payload loses and adds no byte, for arbitrary binary content |
| `RelaySafety.TargetCommandStep` | src/nfs_client_logic.c:146-187 | What the target does with the next command is what the relay meant by it |
| `RelaySafety.TargetReceivesStep` | src/nfs_client_logic.c:122-143 | A partial read of a chunk moves exactly these bytes from the stream to the end of the file |
| `RelayEndToEnd.BytesAreConserved` | src/thread_pool.c:308-341 | In every reachable state: target disk ++ in flight to the target ++ held by the relay ++ in flight from the source ++ source buffer ++ unread = the file |
| `RelayEndToEnd.FinishedTransfer` | src/thread_pool.c:326-361 | After return value 0 the target file is the first `total` bytes of the source, no other file changed, no descriptor is open; it is a full copy if and only if no read and no send failed during the run |
| `RelayEndToEnd.LostIffDisturbed` | src/thread_pool.c:265-341 | The history field `lost` is what a reader of the run sees: a failing read or send has happened |
| `RelayEndToEnd.RefusedTransfer` | src/thread_pool.c:265-298 | After return value -1 from the header checks the target has been sent nothing, and there was a failure or a first read that missed a part of the header |
| `RelayEndToEnd.MeasureFalls` | src/thread_pool.c:326-337 | Every step of every party lowers one measure |
| `RelayEndToEnd.TransfersEnd` | src/thread_pool.c:214-362 | No schedule and no fragmentation makes a transfer run for ever |
| `RelayEndToEnd.UndisturbedTransferCopies` | src/thread_pool.c:265-341 | A transfer in which no read or send fails and the first read holds the header cannot get stuck half way: where it stops, the target has an exact copy, empty files included |
| `RelayEndToEnd.CopyExists` | src/thread_pool.c:265-341 | For every file whose size fits a `long` there is a run without a failure that copies it: the header always fits the first read |
| `RelayEndToEnd.SuccessWithoutCopy` | src/thread_pool.c:326-361 | Return value 0 does not mean a copy: for every non-empty file there is a run that returns 0 and leaves the target empty |
| `Transfers.HandlePull` | src/nfs_client_logic.c:37-84 | However reads and sends cut the data the nested loops emit size, space and content; only a failed read or send leaves a prefix; a file that cannot be opened gives the error reply |
| `Transfers.RelayChunks` | src/thread_pool.c:326-337 | The chunk loop sends on what it reads, chunk by chunk, and stops short of the size only if a read yields nothing |
| `Transfers.SyncSingleFile` | src/thread_pool.c:265-361 | Refuses exactly when the first read has no size or a negative one; otherwise sends one complete PUSH series whose bytes are those behind the header, in order |
| `Transfers.RelayedIsPrefix` | src/thread_pool.c:272-337 | Of a reply cut anywhere, what is relayed is a prefix of the content |
| `Transfers.CopyFile` | src/thread_pool.c:265-361 | The three handlers composed: 0 means the source file exists and the target file is its first `total` bytes, all of them unless a read came up empty; otherwise, and always for a source file that cannot be opened, no file changed |
| `FileServer.Client.HandlePush` | src/nfs_client_logic.c:86-144 | Open, close or receive a chunk: the result is that of `PushEffect` for every fragmentation, with at most one descriptor open |
| `FileServer.ReceiveInPieces` | src/nfs_client_logic.c:126-143 | Receiving some bytes now and the rest later is the same as receiving all at once |
| `FileServer.SameFileIff` | src/nfs_client_logic.c:89-93 | Two paths name the same file exactly if they are equal, or one is the other with one slash put in front of a path that had none |
| `FileServer.RelativeOf` | src/nfs_client_logic.c:89-93 | One leading slash is taken off, any other path is kept |
| `FileServer.PullChangesNothing` | src/nfs_client_logic.c:168-171 | A PULL command, whatever its path, leaves the files and the open descriptor alone |
| `FileServer.ListChangesNothing` | src/nfs_client_logic.c:163-166 | So does a LIST command, whatever its directory |
| `FileServer.StrayPushChangesNothing` | src/nfs_client_logic.c:108-120 | A chunk or an end for which no file is open changes nothing |
| `FileServer.Client.HandleClientConnection` | src/nfs_client_logic.c:146-188 | A connection is served to its end with the effect of its commands in order |
| `ServerRuns.ServeSeries` | src/nfs_client_logic.c:86-144 | One PUSH series, complete or broken off between or inside chunks, leaves its file with exactly the bytes that arrived and all other files alone |
| `ServerRuns.TwoSeries` | src/nfs_client_logic.c:86-144 | Of two series in either order, both end on the disk with their own contents if their paths do not name the same file; otherwise the later one wins |
| `ServerRuns.RunsReplay` | src/nfs_client.c:25-43 | Over any sequence of connections the files are those of replaying the transfers in order; no later transfer appends to a broken-off one; at most one descriptor is open |
| `ServerRuns.ReplayKeepsLast` | src/nfs_client.c:25-43 | A file holds what the last series for it brought, whatever came for other files |
| `FleetRuns.ThreeEnds` | src/nfs_manager_logic.c:108-182 | Manager, any number of workers, and clients that serve one connection at a time, over any sequence of listings: where nothing but failures can still happen, all work is done, or the manager waits for the listing of a directory that cannot be opened, or it holds a client while the job queue is full and every worker waits, directly or behind other waiting workers, for that client |
| `FleetRuns.OneListingIff` | src/nfs_manager_logic.c:123-180 | One listing into an empty pool: every run ends with all work done if and only if the directory can be opened and has at most workers + capacity files, in the wait for the listing if and only if it cannot be opened, and in the circular wait otherwise |
| `FleetRuns.LongListingDeadlocks` | src/thread_pool.c:156-158 | The stuck run: for every system and one directory with more files than workers + capacity there is a run into the circular wait, which no continuation leaves |
| `FleetSchedules.CanGetDoneIff` | src/nfs_manager_logic.c:108-182 | For every sequence of listings some run gets everything done if and only if every directory can be opened and none has more than workers + capacity files |
| `FleetRuns.SmallPlansGetDone` | src/nfs_manager_logic.c:108-182 | If all listings together have at most workers + capacity files and all directories can be opened, every run gets everything done |
| `FleetRuns.DeadlockIsForEver` | src/nfs_manager_logic.c:154-178 | No step, failing ones included, ends the circular wait; nothing more is queued, taken or copied |
| `FleetRuns.MissingDirectoryHangs` | src/nfs_manager_logic.c:142-148 | A manager that has asked for a directory that cannot be opened never does anything again |
| `FleetRuns.WorkersNeverBlockEachOther` | src/thread_pool.c:226-255 | While the manager is not listing there is no circular wait: every job comes to its end, although every worker holds a connection to its source and one to its target |
| `FleetRuns.ChainsEndAtManager` | src/nfs_client.c:25-43 | The heart of it: along a chain of waiting workers the connections to the sources get ever older, since the source is connected before the target, so the chain ends, and only at the manager |
| `FleetJobs.GoodStep` | src/nfs_manager_logic.c:123-180 | Every step keeps the invariant: each connection where it was made and in order, each job queued or taken once, and no file of the source being listed copied before the manager lets go of its client |
| `FleetRuns.DisksAreReplays` | src/nfs_client.c:25-43 | In every reachable state of the whole system, stuck or not, each client holds the files of the transfers it has served as a target, replayed in the order of service |
| `FleetRuns.DoneMeansServedOnce` | src/nfs_client.c:25-43 | Where all work is done each target has served each of its transfers exactly once |
| `FleetCopies.AllCopiesExact` | src/nfs_manager_logic.c:108-182 | The end-to-end copy of the whole system: where all work is done without a failing step, target paths are distinct and no source path is a target path, every target file holds the bytes its source file had at the start, and every other file on every disk is as it was |
| `FleetCopies.SentIsPrefix` | src/thread_pool.c:308-341 | In every reachable state what a closed task has sent is a prefix of its source file as it was when it was transferred, all of it exactly if that step did not fail; nothing is sent exactly if it was refused |
| `FleetRuns.RunsEnd` | src/thread_pool.c:214-362 | The whole system stops: a run has at most eight steps for each file and four for each listing |
| `Wire.HandleList` | src/nfs_client_logic.c:4-35 | The directory loop sends one line for each visible regular file, then the end marker; what is sent ends with the marker if and only if the directory could be opened, and is nothing otherwise |
| `Wire.VisibleIff` | src/nfs_client_logic.c:18-31 | The names listed are exactly those of regular files that are not hidden |
| `Wire.VisibleOfParts` | src/nfs_client_logic.c:18-31 | Entries are listed in the order and as often as the directory gives them |
| `Wire.DirectoryRoundTrip` | src/nfs_manager_logic.c:142-178 | A directory's reply read whole makes the manager understand exactly its visible regular files, in directory order |
| `Wire.ListingReadIff` | src/nfs_manager_logic.c:142-178 | A read of the first n bytes of a listing yields exactly the names listed if and only if at most the last newline and the end marker are missing |
| `Wire.ListingReadShort` | src/nfs_manager_logic.c:142-178 | A read of any length of a listing yields the first names, in order, and after them at most a cut beginning of the next |
| `Wire.PushRoundTripIff` | src/nfs_client_logic.c:173-181 | A PUSH command is understood as sent if and only if its path is one word |
| `Wire.PullRoundTripIff` | src/nfs_client_logic.c:157-171 | A PULL command is understood as sent if and only if its path has no newline and does not begin with a blank |
| `Wire.ListRoundTripIff` | src/nfs_client_logic.c:157-166 | A LIST command is understood as sent if and only if its directory has no newline and does not begin with a blank |
| `Wire.UnknownIff` | src/nfs_client_logic.c:163-184 | A command is unknown exactly if it begins with none of the three names |
| `Wire.HeaderReadIff` | src/thread_pool.c:265-283 | Whatever bytes follow, the relay finds size and payload start if its first read holds the header, and no header otherwise |
| `Wire.ErrorReplyIsNegative` | src/nfs_client_logic.c:44-49 | An error reply of which three bytes are read announces -1, never a size |
| `Wire.ErrorReplyIsRefused` | src/thread_pool.c:265-298 | However little of an error reply is read, the relay refuses it |
| `Wire.ErrorReplyCarriesMessage` | src/nfs_client_logic.c:44-49 | An error reply is -1, a blank and the message, up to 63 characters |
| `DirectorySpec.ParseIff` | src/utils.c:154-198 | What is accepted, without the parser: the text splits at the first `@` and the first `:` behind it into parts that fit the buffers and a positive port |
| `DirectorySpec.RoundTripIff` | src/utils.c:154-198 | Printing and parsing an endpoint gives it back if and only if the format can carry it |
| `DirectorySpec.ParseDirectorySpec` | src/utils.c:154-198 | On the caller's buffers: success exactly when the text is accepted, then buffers and port hold its parts; no write leaves a buffer for any text |
| `DirectorySpec.CopyInto` | src/utils.c:173-174 | Copy and terminator leave the buffer holding exactly the text as a C string |
| `DirectorySpec.ConfigLineRoundTripIff` | src/utils.c:200-224 | A printed configuration line reads back if and only if both endpoints are printable and free of white space |
| `CText.ScanWordIff` | src/utils.c:210-213 | What one word conversion delivers: blanks, a word, and a rest that does not go on with it |
| `CText.AtoiOfSigned` | src/utils.c:191-195 | The number read from blanks, a sign, digits and any rest |
| `CText.AtoiOfNoNumeral` | src/utils.c:191-195 | Text that goes on with neither sign nor digit is read as 0, which is no port |
| `SyncEntries.ToMapAt` | src/sync_info.c:111-131 | The first entry found in the list is what the map holds under the key |
| `SyncEntries.OpRefines` | src/sync_info.c:82-185 | Add, find, remove and deactivate on the list are the operations on a finite map, with the same answers, and keep keys distinct |
| `SyncEntries.RunRefines` | src/sync_info.c:82-185 | Every sequence of operations gives the answers and the final content a finite map gives |
| `SyncEntries.RemoveKeepsOrder` | src/sync_info.c:148-156 | Removal at head, middle or tail is filtering: the others keep their order |
| `SyncStore.SyncInfo.constructor` | src/sync_info.c:40-74 | A new entry is active, unlinked, and holds the texts cut to their fields |
| `SyncStore.SyncInfoStore.constructor` | src/sync_info.c:3-20 | A new store is empty |
| `SyncStore.SyncInfoStore.Add` | src/sync_info.c:82-109 | On the linked list: a new key goes to the head, a known key changes nothing; list acyclic, keys distinct, count = length |
| `SyncStore.SyncInfoStore.Find` | src/sync_info.c:111-131 | Null exactly if the key is absent, otherwise the node with the key |
| `SyncStore.SyncInfoStore.Remove` | src/sync_info.c:133-168 | Exactly the node with the key leaves the chain, the other nodes stay linked in order with their values; a missing key changes nothing |
| `SyncStore.SyncInfoStore.Deactivate` | src/sync_info.c:170-185 | Exactly the flag of the entry with the key goes down |
| `SyncStore.SyncInfoStore.FreeAll` | src/sync_info.c:22-38 | Destruction frees each entry once |
| `ManagerRuns.ParsedIsCopiedExactly` | src/sync_info.c:53-65 | The limits of the parser make every truncating copy of an accepted specification exact |
| `ManagerRuns.CancelHitsTheAddedPair` | src/nfs_manager_logic.c:329-354 | After an add, any text that parses to the same source cancels exactly that pair and no other |
| `ManagerRuns.AddOfListing` | src/nfs_manager_logic.c:279-327 | A new pair whose source answers with a whole listing, and a pool that takes all it is offered: result 0, and exactly one job for each file, in order, from this source to this target, under the listed name |
| `ManagerRuns.AddRefused` | src/nfs_manager_logic.c:265-288 | An add with a text that is not accepted (-1) or with a known source (1) changes nothing |
| `ManagerRuns.CancelMeans` | src/nfs_manager_logic.c:329-354 | Cancel, wherever the pair stands: -1 for a text that is not accepted, 1 for an unknown source, otherwise 0 and exactly that flag down |
| `ManagerRuns.StartedAtMostOnce` | src/nfs_manager_logic.c:252-327 | Over every run of commands a source is stored exactly if it has been listed, and it is listed at most once |
| `ManagerRuns.AcceptedAtMostOnce` | src/nfs_manager_logic.c:153-178 | If listings name each file once, no file of a source is ever handed to the pool twice |
| `ManagerJobs.JobsBelong` | src/nfs_manager_logic.c:153-178 | Over every run of commands each accepted job copies from a stored source to exactly the target stored with it, and no two accepted jobs are the same allocation |
| `ManagerRuns.OpenPoolTakesAll` | src/nfs_manager_logic.c:153-178 | A run whose jobs the pool has all taken is the run with a pool that takes every job of every command |
| `ManagerRuns.RanMore` | src/nfs_manager_logic.c:153-178 | Over commands one after the other the accepted jobs stay a prefix of all jobs made, the whole of them while the pool is open, and none is added once it has closed |
| `ManagerRuns.FailedListingIsFinal` | src/nfs_manager_logic.c:300-317 | An add whose listing fails returns -1 but leaves the pair stored: every later add of its source answers 1, changes nothing and makes no job |
| `ManagerRuns.PairsAreKept` | src/nfs_manager_logic.c:252-354 | No run removes a pair, changes its target or makes it active again |
| `ConcurrentCommands.OneWinnerPerKey` | src/nfs_manager_logic.c:281-310 | Under every interleaving of the critical sections exactly one caller adds a new key, its entry is the one stored, callers that came late are not it, and no source is listed twice |
| `ConcurrentCommands.StoredKeyStays` | src/sync_info.c:87-108 | A key already stored is never added or listed again, whatever is interleaved |
| `ConcurrentCommands.WinnersAreListed` | src/nfs_manager_logic.c:308-310 | Once all callers have finished, exactly the sources that were added have been listed |
| `ConcurrentCommands.CancelIsNotLost` | src/sync_info.c:175-182 | However commands are interleaved, a finished cancel of a stored pair has turned it off for good |
| `Manager.Manager.EnqueueListing` | src/nfs_manager_logic.c:152-178 | The `strtok` loop offers one job for each name in order; the accepted ones are a prefix, short only if the pool has closed, each with this source, this target and its name |
| `Manager.Manager.StartDirectorySync` | src/nfs_manager_logic.c:108-182 | When its `recv` returns: fails exactly for empty fields or a missing reply; otherwise all names of the reply are offered, and each new accepted job has this source, this target and the name at its place (when it does not return: `FleetRuns.MissingDirectoryHangs`) |
| `Manager.Manager.HandleAdd` | src/nfs_manager_logic.c:252-327 | When the `recv` of the listing returns: state, result and number of accepted jobs of the add command for every pair of texts, including malformed ones, known keys and sources that do not answer |
| `Manager.Manager.HandleCancel` | src/nfs_manager_logic.c:329-354 | State and result of the cancel command; nothing but one flag may change |
| `Manager.Manager.HandleShutdown` | src/nfs_manager_logic.c:356-377 | The pool is closed, the books stay as they are |
| `Manager.Manager.LoadConfig` | src/nfs_manager_logic.c:203-236 | The line loop carries out one add for each well-formed line in order and skips the others; the jobs accepted are a prefix of all jobs the lines make, all of them if the pool is still open, none if it was closed; the books stay consistent |
| `Manager.Manager.HandleConsole` | src/nfs_manager_logic.c:379-446 | The command loop carries out the messages in order up to and including the first shutdown, and it has closed the pool if and only if there was one; the jobs accepted are a prefix of all jobs the messages make, all of them if the pool is still open, none if it was closed |
| `ManagerTexts.AddIff` | src/nfs_manager_logic.c:409-416 | A message is an add of w1 to w2 exactly if its words begin with "add", w1, w2 |
| `ManagerTexts.CancelIff` | src/nfs_manager_logic.c:424-425 | A message cancels w exactly if its words are "cancel" and w |
| `ManagerTexts.ShutdownIff` | src/nfs_manager_logic.c:433-437 | A message is a shutdown exactly if its first word is "shutdown" |
| `ManagerTexts.BadIff` | src/nfs_manager_logic.c:438-440 | Every other message is refused |
| `ManagerTexts.ConsoleAddStores` | src/nfs_manager_logic.c:409-423 | An add message with two printed endpoints stores exactly that source with that target, or changes nothing if the source is known |
| `ManagerTexts.ConsoleCancelClears` | src/nfs_manager_logic.c:424-432 | A cancel message with a printed endpoint lowers the flag of exactly that pair |
| `ManagerTexts.ConfigLineStores` | src/nfs_manager_logic.c:207-226 | A printed configuration line stores exactly its source with its target, unless it begins with the mark of a comment |
| `ManagerTexts.OtherLinesDoNothing` | src/nfs_manager_logic.c:207-221 | Comments, empty lines and lines of less than two words change nothing |

## Left out

- Sockets, `connect`, `accept`, `select`, signals, and the flag set by signal handlers: operating system calls; what they deliver is a parameter.
- Coalescing of a PUSH command with its payload or with another command, and commands longer than the 4095 bytes of one `recv`: the code has no framing for them.
- Failing `send_command` calls in `sync_single_file` (src/thread_pool.c:257-263, 302-306) and failing connections (src/thread_pool.c:226-255): they return -1 before anything has been relayed.
- The thread creation failure path (src/thread_pool.c:53-70), which sets the flag without the mutex, and failing allocations.
- PUSH after a failed open, failing writes to the target file, and descriptor numbers used again: `FileServer` numbers descriptors freshly and its files can always be opened and written.
- Texts longer than the fixed buffers of `sscanf` and `snprintf` (paths, console words, names over 255 bytes), and `atoi` beyond the range of `int`: numbers are unbounded here.
- What `handle_console_connection` does when a message has no word at all, where the C code compares an uninitialised buffer: the model treats it as an invalid command.
- Logging, timestamps, printing, `error_count`, `last_sync_time`, the replies on the console connection, argument parsing and the console program: nothing modelled depends on them.
- Removing queued jobs on cancel: the code does not do it, it only clears the flag.
- JobQueue.JobQueue.EnqueueSection: the wait loop around it is in `WorkerPool`, since another thread runs while it waits; the same holds for `DequeueSection`.
- JobQueue.JobQueue.FreeRemaining: like the code it leaves tail and size behind, so it does not restore the list invariant.
- SyncStore.SyncInfoStore.Search: the traversal written out in each operation of the source is one shared method here, and unlinking and linking are methods of their own.
- SyncStore.SyncInfoStore.Deactivate: one section here; that looking up and clearing are two critical sections is modelled in `ConcurrentCommands`.
- Fleet: one step is a whole transfer, as fine steps of many transfers at once are not interleaved; failing connections, full streams and clients that go away are not in it.
- Joining the same workers twice, as two threads that wait for or destroy one pool would: POSIX leaves it undefined, and in `WorkerPool` both join loops end. `nfs_manager` joins once.
- Transfers.CopyFile: runs the three handlers one after the other; that they run at once is modelled in `Relay`.
- Manager.PoolHandle.Enqueue: the pool as its caller sees it, open until some moment and closed from then on; that the pool behaves so is `PoolConservation.NothingAcceptedAfterShutdown`.
- Wire.ErrorReplyIsNegative: a first read shorter than the three bytes of `-1 ` finds no header and is refused as well (`Transfers.SyncSingleFile`).
