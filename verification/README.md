# Viskium, modelled and proved in Dafny

Viskium turns a camera into bounded, persisted observations and lets a local agent read them under consent. This
project models the parts of it where correctness is a matter of protocol, transaction or exact arithmetic, and
proves what they keep. `dafny verify dfyconfig.toml` checks everything.

| part | files |
|---|---|
| canonical JSON, its parser, UTF-8, observations | `CanonicalJson`, `JsonParser`, `JsonRoundTrip`, `JsonShortest`, `Utf8`, `BoundedEncoding`, `JsonSize`, `Observation` |
| cycle-safe payload freeze on a heap graph | `PayloadFreeze`, `PayloadLimits` |
| transactional store, in-memory store, row codec | `StoreTable`, `SqliteStore`, `SqliteStoreProofs`, `SqliteDecisions`, `SqliteFaults`, `SqliteStoreObject`, `RowCodec`, `StoreVisibility`, `MemoryStore`, `StoreAgreement` |
| single-owner writer | `WriterMachine`, `WriterDecisions`, `WriterObject` |
| camera controller, snapshot provider, device lease | `CameraPolicy`, `ControllerMachine`, `ControllerProofs`, `ControllerDecisions`, `ControllerObject`, `SnapshotProvider`, `SnapshotReads`, `DeviceOwnership`, `FileLock` |
| latest-frame slot, scheduler, camera-to-observation pipeline | `LatestSlot`, `LiveScheduler`, `SchedulerObject`, `Pipeline`, `PipelineProgress` |
| parent and child of the process camera | `WorkerProtocol`, `WorkerProofs`, `WorkerDecisions`, `CameraBackendObject` |
| replay schedule, processor and store, polygon fill, PNG encoder | `Replay`, `DigestProcessor`, `ReplayStore`, `PolygonFill`, `Png` |
| consent ledger and snapshot quota | `Consent`, `ConsentSize`, `ConsentLedger`, `SnapshotConsent`, `SnapshotDecisions`, `ConsentFileRuns` |

How the models are made:

- Code that several threads or processes run is a machine over values. One step is one region under a lock or one
  external call; a `Run` is any sequence of steps of any party. What the outside decides (a clock reading, an
  exception, a database error, a timeout) is a parameter of the step, so every theorem over runs is a theorem over
  all interleavings and all failures.
- The objects are classes, and every method is proved against a function on values:
  `State() == Put(old(State()), ...)`. The theorems are about those functions. A method of an object that several
  threads share is one region under its lock, or one stretch between two external calls.
- What a machine keeps says nothing of one that refuses everything, so beside the invariants stand the decisions: for
  each main operation, every answer as an equivalence over the limits, the state and what the world did, in plain
  quantities (`SqliteDecisions`, `SqliteFaults`, `ControllerDecisions`, `WriterDecisions`, `WorkerDecisions`,
  `SnapshotDecisions`, `SchedulerObject.ResultEnds`); and runs in which everything works and gets done
  (`PipelineProgress.FramesGoThrough`, `WriterDecisions.WorkingStoreIsDrained`, `WorkerDecisions.WorkingDeviceOpens`,
  `SnapshotDecisions.CoveredCallsAreHonoured`).
- Machines carry history (what was submitted, created, closed, offered, delivered) that no step ever reads. The
  theorems compare the state with that history.
- The digest, the CRC, the compressor and the float formatter are function-valued parameters or carried as text.
  What is needed of them (no collision among the documents in use, a decompressor that undoes the compressor) is a
  precondition of the lemma that needs it. No digest is assumed injective on all inputs, which would be false.

Three results are worth naming because they are not what one expects.

- *The process camera can fall out of step.* `read` sends its command, reads the clock, waits and receives, and
  handles only exceptions of the pipe on the way (`src/viskium/adapters/opencv_process_camera.py:674-683`). Any other
  leaves the backend open, and while the reply is still to come, with a command or a reply that a later read will take
  for its own: an invalid clock reading does so, and more time left than `poll` accepts, some 25 days on POSIX, which
  a far deadline or a clock that once reads too low can ask for. `WorkerProofs.EveryRunStaysInStep` proves that an
  open backend is in step if and only if no read of its session has ended so, or has lost the worker's last reply to
  an exception (an error while unpickling, say), for a worker that neither crashed, nor lost a message, nor fell into
  its last handler. `WorkerProofs.GuardIsExact` gives the condition on deadline and reading that a caller
  can see to, `WorkerProofs.GuardedRunsStayInStep` that it suffices, and `WorkerProofs.UnguardedReadBreaksStep` a run
  for every deadline and reading it refuses. `open` has the same gap: what it does not handle leaves process and pipe
  held with no stream (`WorkerProofs.PollOverflowStrandsOpen`, and the exact condition in
  `CameraBackendObject.OpenCVProcessCameraBackend.Open`).
- *A rectangle can shorten the canvas.* `_rect` assigns to slices, and a negative right edge on the first rows makes
  the end of the slice count from the end of the canvas, so bytes are deleted: a rectangle from column 0 to column -1
  on the top row leaves three bytes of it (`PolygonFill.LeftRectangleShrinks`). `PolygonFill.SlicesFillSafely` and
  `PolygonFill.PolygonSlicesFillSafely` give the exact condition under which the length stays, and then what is
  coloured. A canvas that is too short can also grow again (`PolygonFill.LengthCanComeBack`), so the condition for a
  polygon is about every scan line's length and not just the last one.
- *Writer items form a prefix, not just a subsequence.* Because every discard empties the queue and nothing is
  submitted after one, what was put, is in hand and is queued is always exactly the first part of what was
  submitted (`WriterMachine.EveryRunConserves`).

## Model

| member | source | states |
|---|---|---|
| CanonicalJson.SortedKeys | src/viskium/core/serialization.py:55 | the keys of a mapping in strictly ascending code point order, each once, whatever the order they were given in |
| CanonicalJson.BelowIsFirstDifference | src/viskium/core/serialization.py:55 | in that order the code points where two keys first differ decide, and a prefix comes first |
| CanonicalJson.AscendingIsUnique | src/viskium/core/serialization.py:55 | two ascending sequences with the same keys are the same sequence, so the order of the members of a document is decided by the keys alone |
| CanonicalJson.StringTokensSpell | src/viskium/core/serialization.py:22-29 | escaping in chunks of 4096 characters spells the same text as escaping the whole string |
| CanonicalJson.TokensSpellPrint | src/viskium/core/serialization.py:32-73 | the token stream spells the chunk-free recursive printing of the value, for every value and any following text |
| JsonRoundTrip.TextRoundTrip | src/viskium/core/serialization.py:32-73 | a reader of sections 4 to 7 of RFC 8259 run on an encoding, followed by any text that does not continue a number, returns the value and exactly that text |
| JsonRoundTrip.EncodingIsUnique | src/viskium/core/serialization.py:32-73 | two encodings with any such following texts are equal if and only if values and texts are |
| JsonShortest.TextIsShortest | src/viskium/core/serialization.py:22-73 | no JSON text that the reader reads as a value is shorter than the canonical one: it has no space, no long escape and no member twice |
| JsonShortest.ControlsAreLowerCase | src/viskium/core/serialization.py:22-29 | a control character without a short escape is written with lower-case hexadecimal digits |
| BoundedEncoding.BoundedCanonicalJsonBytes | src/viskium/core/serialization.py:76-86 | the early-stopping encoder returns the whole document if and only if it fits the limit |
| BoundedEncoding.CanonicalJsonSize | src/viskium/core/serialization.py:89-98 | the early-stopping measure returns the exact UTF-8 size if and only if it is within the limit |
| BoundedEncoding.LoadsUndoesDocument | src/viskium/core/serialization.py:76-86 | decoding UTF-8 and JSON undoes the encoder on every value |
| BoundedEncoding.DocumentIsInjective | src/viskium/core/serialization.py:76-86 | two values have equal bytes if and only if they are the same value |
| Utf8.RoundTrip | src/viskium/core/serialization.py:82 | UTF-8 decoding undoes encoding for every string of Unicode scalar values |
| Utf8.TripRound | src/viskium/core/serialization.py:82 | a byte string that decodes is the encoding of what it decodes to, so no string has two encodings |
| Observations.EncodingRoundTrip | src/viskium/core/serialization.py:101-123 | loading an envelope's bytes and calling its constructor with the members gives the same envelope |
| Observations.EncodingIsInjective | src/viskium/core/serialization.py:101-133 | valid envelopes have equal bytes if and only if they are equal |
| PayloadFreeze.PayloadFreezer.Freeze | src/viskium/core/contracts.py:79-135 | freezing one value of a heap graph returns its unfolding with the exact node and text counts added, or refuses when no unfolding is admissible at this depth and these counts |
| PayloadFreeze.FreezeJsonPayload | src/viskium/core/contracts.py:68-137 | terminates on every finite heap graph and succeeds if and only if the payload has a finite unfolding within the node, depth and text limits with valid keys and scalars |
| PayloadLimits.AdmissibleMeans | src/viskium/core/contracts.py:68-137 | that is: of the values reached, each as often as it is, there are at most 4096, none more than 32 levels deep, their strings and keys have at most 65536 characters together, every key has 1 to 256 with one that is not white space, and every integer fits in 64 bits |
| PayloadFreeze.SameUnfoldingSameOutcome | src/viskium/core/contracts.py:68-137 | the result depends on the unfolding alone, so sharing, identity and the choice between list and tuple do not matter |
| PayloadFreeze.FreezingIsIdempotent | src/viskium/core/contracts.py:68-137 | a frozen payload, built of containers of its own, is again a payload, and freezing it can only give the same copy |
| PayloadFreeze.UnfoldsExactlyWhenAcyclic | src/viskium/core/contracts.py:103-134 | a container has a finite unfolding if and only if no path of references from it reaches a cycle |
| StoreTable.BatchIsFirst | src/viskium/storage/sqlite_store.py:637-648 | the selected batch is exactly the first min(limit, number expired) rows by expiry and sequence, and never a live row |
| StoreTable.BatchIsOldest | src/viskium/storage/sqlite_store.py:637-648 | the same in the columns: ordered by expiry and then sequence, and every expired row left out comes later |
| StoreTable.FirstBatchDeducts | src/viskium/storage/sqlite_store.py:649-667 | deleting such a batch lowers the row count and the byte sum by exactly its own |
| SqliteStoreProofs.PutKeeps | src/viskium/storage/sqlite_store.py:528-718 | every put, whatever statement fails, keeps counters true, ceilings and unique keys, hands out the file's next sequence if accepted, and otherwise leaves the file as it was |
| SqliteStoreProofs.CeilingRejectionIsNecessary | src/viskium/storage/sqlite_store.py:632-680 | a put rejected for a row or byte ceiling would still not fit after the first expired batch is gone |
| SqliteStoreProofs.PurgeKeeps | src/viskium/storage/sqlite_store.py:870-943 | a purge deletes exactly the first expired rows and counts them, or changes nothing |
| SqliteDecisions.PutDecides | src/viskium/storage/sqlite_store.py:528-718 | a put to a healthy store is accepted if and only if the observation may be stored, no row has its key, its expiry is in range, the volume keeps its reserve, the counters agree, a sequence is left, there is room before or after the first expired batch is deleted, and no statement fails; every rejection and failure has its own condition in the same terms; and the store becomes read-only exactly when the put fails for anything but a busy database or an unknown volume |
| SqliteDecisions.ShutStoreRefuses | src/viskium/storage/sqlite_store.py:528-533 | a closed or read-only store answers at once, with the reason it was latched for, and is left alone |
| SqliteDecisions.PurgeDecides | src/viskium/storage/sqlite_store.py:870-943 | a purge of a healthy store deletes if and only if limit and clock are in range, the counters agree and no statement it needs fails; every refusal and failure has its own condition, and only a failure latches, as it reports |
| SqliteFaults.FaultsAreReported | src/viskium/storage/sqlite_store.py:495-718 | whatever statements of a put fail, it reports the first one it reaches, under the reason of that error; a rollback that fails is reported instead, after an error as such and in place of a refusal as an error of its own |
| SqliteFaults.PurgeFaultsAreReported | src/viskium/storage/sqlite_store.py:870-943 | the same of a purge |
| StoreVisibility.PutStores | src/viskium/storage/sqlite_store.py:625-718 | an accepted put adds its row, column by column, under the file's next sequence, sets the counters to the rows that are left and it, and deletes no row but the first expired ones, and those only if it would not fit otherwise |
| StoreVisibility.PutIsFound | src/viskium/storage/sqlite_store.py:804-868 | until it expires, and no longer, the row of an accepted put comes first in every query of its session, decodes to what was put, and is not expired; from then on a purge may delete it |
| StoreVisibility.PutIsIdempotent | src/viskium/storage/sqlite_store.py:558-585 | the same observation put again coalesces with its row, whatever the clock and the volume say, and changes nothing |
| SqliteDecisions.OpenDecides | src/viskium/storage/sqlite_store.py:383-408 | a file opens exactly when its counters are those of its rows, its next sequence is above every sequence in use, and both ceilings hold |
| SqliteStoreProofs.ReopenSucceeds | src/viskium/storage/sqlite_store.py:383-408 | a file left by any run opens again under the same limits, with the counters in memory equal to the stored ones |
| SqliteStoreProofs.RunIsSafe | src/viskium/storage/sqlite_store.py:528-943 | over every run of put, purge, reopen and another connection's commits, the file stays sound and the sequences handed out increase strictly and are never reused |
| SqliteStoreProofs.EveryRunIsSafe | src/viskium/storage/sqlite_store.py:528-943 | from a new file, over every such run: the stored counters are the row count and the byte sum, both ceilings hold, no two rows share a key, and the sequences handed out increase strictly below the next one |
| SqliteStoreProofs.AloneStaysInStep | src/viskium/storage/sqlite_store.py:625-630 | with no other connection, the counters in memory equal the stored ones whenever the store is healthy |
| SqliteStoreObject.SQLiteStore.Put | src/viskium/storage/sqlite_store.py:528-718 | the method that updates the object statement by statement makes exactly the specified change and returns the specified receipt; on a healthy store every answer is decided by the observation, the limits, the clock, the volume, the file and the faults, and the store latches read-only exactly as it reports |
| SqliteStoreObject.SQLiteStore.PurgeExpired | src/viskium/storage/sqlite_store.py:870-943 | the same for the purge |
| SqliteStoreObject.SQLiteStore.QueryLatest | src/viskium/storage/sqlite_store.py:804-868 | refuses exactly a closed store and bad arguments; otherwise reads the newest live rows of the session cut at the row limit, fails exactly when the failing row is reached, reports corruption exactly when a row that does not decode is reached first, and in every other case answers with the longest decoded prefix within the byte limit; only corruption and a disk error latch the store read-only |
| SqliteStoreObject.CursorIsNewestFirst | src/viskium/storage/sqlite_store.py:829-850 | the cursor lists only wanted rows, newest first, and leaves out only older ones once the limit is reached |
| SqliteStoreObject.QueriesReadWhatWasPut | src/viskium/storage/sqlite_store.py:804-868 | on a file only stores have written, every row a query reads decodes, to an observation that was put |
| SqliteStoreObject.WholesomeFilesAnswer | src/viskium/storage/sqlite_store.py:804-868 | on such a file every query that gets to its cursor without a database error answers, and every observation it finds is the one that was put for its row |
| RowCodec.WrittenRowDecodes | src/viskium/storage/sqlite_store.py:681-802 | a row written by an accepted put passes every check of decoding and yields the observation that was put |
| RowCodec.DecodedRowWasWritten | src/viskium/storage/sqlite_store.py:720-802 | a row that passes every check is, column by column, the one a put of its observation writes |
| RowCodec.WholesomeRowsDecode | src/viskium/storage/sqlite_store.py:720-802 | every row of a file produced by puts decodes |
| MemoryStore.MemoryStore.Put | src/viskium/adapters/memory_store.py:53-93 | every answer is decided by the list of observations, the two limits and the size, for any equality of observations and any measuring of them that may raise; an accepted one is appended, nothing else changes the store, and both tables keep indexing the same list |
| StoreAgreement.EmptyStoresAgree | src/viskium/adapters/memory_store.py:16-32 | an empty transactional store and an empty in-memory store with equal limits agree |
| StoreAgreement.DigestsDecide | src/viskium/storage/sqlite_store.py:558-585 | with a digest that separates the documents in use, equal digests mean equal observations |
| StoreAgreement.SqliteSimulatesMemory | src/viskium/storage/sqlite_store.py:528-718 | on any sequence of quiet calls (nothing expired, no errors, ample headroom, no digest collision among the documents in use) both stores answer with the same statuses and sequence numbers |
| WriterMachine.EveryRunConserves | src/viskium/storage/writer.py:236-488 | over every run the byte count is the sum over the queue, both limits hold, every queued item is counted once, each put under the status it ended in, and the items put, in hand and queued are in order the first ones submitted |
| WriterMachine.CleanStopIsSettled | src/viskium/storage/writer.py:311-363 | a clean stop report means the queue is empty, nothing is in flight, a created store was closed once without error after its last put, and unless the stop that left RUNNING asked to discard, everything submitted was put once and in order |
| WriterMachine.BrokenForever | src/viskium/storage/writer.py:338-363 | a failed or stuck writer never leaves those two states and accepts nothing more |
| WriterMachine.ReachableIsSound | src/viskium/storage/writer.py:200-488 | every step of any caller or of the worker keeps the writer's invariant |
| WriterDecisions.WorkingStoreIsDrained | src/viskium/storage/writer.py:200-488 | a session whose submissions fit and whose store returns ends, after a stop that drains, with everything put in order, the store closed once after the last put, and a clean report that nothing was discarded |
| WriterDecisions.WorkingStoreIsCutOff | src/viskium/storage/writer.py:200-488 | after a stop that does not drain, with everything queued discarded and reported, and the store closed |
| WriterDecisions.ActiveStoreIsKept | src/viskium/storage/writer.py:338-488 | over every run a published store ceases to be the active one only when it has been closed, stays retained if the writer is STUCK, and a stop whose join times out while it is in use retains it and says so |
| WriterDecisions.LateStoreIsClosed | src/viskium/storage/writer.py:200-232 | a store that appears after the start timed out is closed and retained by a writer that stays STUCK for that reason |
| WriterDecisions.StopBeginDecides | src/viskium/storage/writer.py:311-343 | the first region of a stop reports at once exactly for a stopped or unstarted writer, cleanly unless it is broken, and otherwise sets aside what it discarded: nothing if it drains, else all that was queued |
| WriterDecisions.StopEndDecides | src/viskium/storage/writer.py:344-363 | the report after the join is clean exactly when the worker has ended STOPPED, and an unfinished worker makes it STUCK |
| WriterObject.ObservationWriter.Submit | src/viskium/storage/writer.py:236-287 | the region of submit makes the machine's step: it queues the item at the end exactly when its size is known, the state is RUNNING, and it fits in both limits; says CLOSED exactly when the size is known and the state is another; and counts everything it does not queue |
| WriterObject.ObservationWriter.BeginStop | src/viskium/storage/writer.py:311-343 | the first region of a stop makes the machine's step and reports at once exactly when the machine does |
| WriterObject.ObservationWriter.EndStop | src/viskium/storage/writer.py:344-363 | the region after the join can turn any state into STUCK while the thread lives, and reports clean only for STOPPED |
| WriterObject.ObservationWriter.DiscardPendingLocked | src/viskium/storage/writer.py:406-409 | counts and empties the queue and zeroes its byte count |
| WriterObject.ObservationWriter.RecordReceipt | src/viskium/storage/writer.py:387-404 | raises the counter of the receipt's own status and no other, and keeps as history the last receipts of all there were, up to the limit |
| WriterObject.ObservationWriter.TakePending | src/viskium/storage/writer.py:439-449 | takes the oldest item, or leaves the loop when told to stop with an empty queue |
| WriterObject.ObservationWriter.PutReturned | src/viskium/storage/writer.py:463-468 | records the receipt with the size of the item put and leaves the loop when told to stop without draining |
| WriterObject.ObservationWriter.PutRaised | src/viskium/storage/writer.py:450-462 | a raising put counts as failed, discards the queue and overwrites even STUCK with FAILED |
| WriterObject.ObservationWriter.FinishRun | src/viskium/storage/writer.py:469-488 | the worker's last region keeps STUCK and FAILED, turns a failed close into FAILED and anything else into STOPPED |
| CameraPolicy.CooldownIsMonotone | src/viskium/capture/contracts.py:203-214 | the delay starts at the initial cooldown, never shrinks with more failures, and never passes the maximum |
| CameraPolicy.CooldownDoubles | src/viskium/capture/contracts.py:203-214 | one more failure doubles the delay, up to the maximum |
| CameraPolicy.RetryDelayIsBounded | src/viskium/capture/controller.py:448-459 | a requested delay lies between the two cooldowns, and is the shortest one from the cooldown of its attempt on that, counted from its clock reading, reaches the reopen interval after the last open |
| ControllerProofs.RetriesAreBounded | src/viskium/capture/controller.py:440-459 | over every run: at most M * (S + 1) + 1 factory calls with S stable streams, the cooldown asked only within its domain, every delay between the cooldowns, and opens at least the reopen interval apart under a clock that never goes back and waits in full |
| ControllerProofs.OfferedFramesChain | src/viskium/capture/controller.py:523-632 | over every run: accepted frames are numbered 0, 1, 2 and so on within an epoch, epochs only grow, and frame number k of an epoch had the negotiated shape and was the (warm-up + k + 1)-th such frame read in it |
| ControllerProofs.ChainAscends | src/viskium/capture/controller.py:487-521 | accepted frames ascend strictly by epoch and sequence |
| ControllerProofs.ChainHasNoGaps | src/viskium/capture/controller.py:487-521 | the k frames before the frame numbered k are those of its epoch, numbered 0 to k - 1 |
| ControllerProofs.BrokenForever | src/viskium/capture/controller.py:343-350 | FAILED and STUCK together are never left, by worker or stop caller |
| ControllerProofs.RetainedForever | src/viskium/capture/controller.py:365-438 | after a close that raises or overruns, the backend stays retained, the lease held, and no factory is called again |
| ControllerProofs.RunKeepsSound | src/viskium/capture/controller.py:658-816 | every step of the worker or of a stop caller keeps the controller's invariant |
| ControllerDecisions.ReadIsHandled | src/viskium/capture/controller.py:534-573 | a read is handled if and only if it did not raise, the clock did not go back, it kept its deadline or said that it had not, and no stop was requested; otherwise the stream ends, for a retry exactly when it raised, and STUCK exactly when it was late without saying so |
| ControllerDecisions.OpenDecides | src/viskium/capture/controller.py:713-782 | a stream begins, with the next epoch and the whole warm-up, if and only if the backend opened in time with a valid one; failed opens are retried, and late ones that do not say so are STUCK |
| ControllerDecisions.ResumeDecides | src/viskium/capture/controller.py:600-613 | after a timed-out read the stream goes on exactly while a frame came within the stale time |
| ControllerDecisions.RetryDecides | src/viskium/capture/controller.py:440-460 | a failure is tried again if and only if the policy's attempts are not used up, and the last one gives the lease back before FAILED |
| ControllerDecisions.CloseDecides | src/viskium/capture/controller.py:753-800 | after a confirmed close the worker retries exactly after failed opens and streams that ended for a retry, counting failures from one after a stable stream |
| ControllerDecisions.FactoryDecides | src/viskium/capture/controller.py:381-422 | a safe backend is opened exactly when no stop was requested, whatever was created is closed otherwise, and a factory that raises counts as a failure unless a stop was requested |
| ControllerDecisions.PauseDecides | src/viskium/capture/controller.py:600-606 | a stop ends the wait after a timed-out read, if there is one |
| ControllerDecisions.OfferDecides | src/viskium/capture/controller.py:484-521 | an open slot takes the frame under the stream's number, and a closed one makes the controller stop |
| ControllerDecisions.ReleaseDecides | src/viskium/capture/controller.py:364-379 | the lease is given back exactly when releasing it does not raise, and is kept by a STUCK controller otherwise |
| ControllerDecisions.WorkingCameraDelivers | src/viskium/capture/controller.py:523-800 | from its start on, a session with a camera that works offers every frame it reads in time but those the warm-up needs |
| ControllerDecisions.FramesAreTaken | src/viskium/capture/controller.py:523-632 | the same from wherever a stream is read, with no stop and an open slot |
| ControllerDecisions.LostCameraComesBack | src/viskium/capture/controller.py:615-800 | after a disconnect the camera is opened again with the next epoch and a new warm-up while attempts are left |
| ControllerDecisions.StoppedCameraEnds | src/viskium/capture/controller.py:364-815 | a stopped camera is closed once, its lease is given back, and the controller shows CLOSED |
| ControllerObject.CameraController.SetState | src/viskium/capture/controller.py:343-350 | STUCK refuses every other state |
| ControllerObject.CameraController.FactoryReturned | src/viskium/capture/controller.py:381-407 | each way the factory can answer, and the tests after it, make the machine's step |
| ControllerObject.CameraController.OpenReturned | src/viskium/capture/controller.py:729-775 | a clock that went back, an overrun deadline, an error, a bad stream and success make the machine's step |
| ControllerObject.CameraController.HandleRead | src/viskium/capture/controller.py:571-626 | by the read's outcome alone: a frame of the negotiated shape takes the warm-up one further or goes to the slot and never closes, one of another shape ends the stream as fatal, a timeout pauses, disconnects and recoverable errors end in a retry, anything else is fatal |
| ControllerObject.CameraController.FrameOffered | src/viskium/capture/controller.py:487-521 | the next sequence is used up only by a frame the slot accepted |
| ControllerObject.CameraController.BackendClosed | src/viskium/capture/controller.py:409-438 | an unconfirmed close retains the backend and ends the loop; a confirmed one goes on as its caller does |
| ControllerObject.CameraController.AfterReading | src/viskium/capture/controller.py:788-798 | a stable stream restarts the count of failed attempts |
| ControllerObject.CameraController.ReleaseLeaseIfSafe | src/viskium/capture/controller.py:365-379 | releases only a held lease with no retained backend, and a raising release makes the controller STUCK |
| ControllerObject.CameraController.ScheduleRetry | src/viskium/capture/controller.py:440-459 | gives up after releasing the lease, or asks for the delay of the policy |
| ControllerObject.CameraController.BeginStop | src/viskium/capture/controller.py:265-302 | a stop up to its join makes the machine's steps and answers at once exactly without a started worker or with a stuck one alive |
| ControllerObject.CameraController.TestAfterJoin | src/viskium/capture/controller.py:308-318 | a stop answers that the worker has ended exactly when it has |
| ControllerObject.CameraController.ExpireStop | src/viskium/capture/controller.py:309-317 | the write of STUCK after that test overwrites any state, also that of a worker that has ended meanwhile |
| SnapshotProvider.CameraSnapshotProvider.Capture | src/viskium/agent/camera_snapshot.py:385-602 | one whole capture is a run of the provider's steps; before a backend is created it is refused exactly by the first of its tests that fails, with that test's outcome; after a failed close every capture fails and changes nothing; a used backend was created, closed and its lease returned, and with close and release confirmed a picture is delivered exactly when the use of the backend delivers one |
| SnapshotReads.ReadFrame | src/viskium/agent/camera_snapshot.py:626-651 | takes a frame exactly when every warm-up read is a matching frame and an attempt after recoverable failures only is one, numbers it by the reads before it, and otherwise reports the read that ended the loops |
| SnapshotReads.UseBackend | src/viskium/agent/camera_snapshot.py:604-679 | delivers exactly when the backend is safe, opens, gives such a frame and it is encoded in time; what ends in a timeout and what in unavailable, both exactly |
| SnapshotProvider.OpensAreSpaced | src/viskium/agent/camera_snapshot.py:487-493 | whatever the clock does, two opens of a provider start at least its interval apart, unless that is 0 |
| DeviceOwnership.OneBackendAtATime | src/viskium/capture/controller.py:658-816 | over every interleaving of any number of controllers and providers in any processes, the backends whose close is not confirmed, summed over all owners, are at most one |
| DeviceOwnership.FailedCloseRetains | src/viskium/agent/camera_snapshot.py:536-602 | every way a close can fail, in either kind of owner, leaves the backend retained and the lease held |
| DeviceOwnership.RetainedStopsFactories | src/viskium/agent/camera_snapshot.py:392-468 | once any owner retains a backend it keeps it and the lock for ever, and no owner calls a factory again |
| DeviceOwnership.FreeDeviceIsGranted | src/viskium/core/file_lock.py:149-176 | an owner that asks for a device whose lock and registry entry nobody has gets both, and holds the lease |
| DeviceOwnership.TakenDeviceIsRefused | src/viskium/core/file_lock.py:149-176 | while another has one of them, it gets neither, and both stay with whoever has them |
| DeviceOwnership.ReleasedDeviceIsFree | src/viskium/core/file_lock.py:178-191 | a lease that closes leaves lock and registry free for the next owner that asks |
| FileLock.FileLockLease.Acquire | src/viskium/core/file_lock.py:149-176 | idempotent when held; otherwise succeeds exactly when the lock is free and the process registry has no entry, and leaves both untouched on failure; every other lease stays valid |
| FileLock.FileLockLease.Release | src/viskium/core/file_lock.py:178-191 | idempotent when free; a failed close keeps the lease open and registered even if the lock is lost with it; a confirmed one frees the registry, and the lock if it had it; every other lease stays valid |
| FileLock.OneOpenLease | src/viskium/core/file_lock.py:118-191 | two leases on one path are never both open in one process, and in two processes only when a close of one has failed |
| LatestSlot.LatestFrameSlot.Offer | src/viskium/capture/latest.py:53-67 | replaces a pending frame or refuses when closed, and keeps the balance of offered, replaced, taken, released and pending |
| LatestSlot.LatestFrameSlot.Take | src/viskium/capture/latest.py:76-88 | gives out the pending frame once, even from a slot about to close, or waits, and keeps the balance |
| LatestSlot.LatestFrameSlot.Close | src/viskium/capture/latest.py:90-96 | releases the pending frame, and a closed slot never holds one |
| LatestSlot.UsesDecide | src/viskium/capture/latest.py:53-96 | over any uses the slot is closed exactly when one of them closed it, counts the frames offered before and after that, and holds a frame exactly when that was the last one offered, was not taken since, and the slot was not closed |
| LiveScheduler.CandidateHonours | src/viskium/runtime/live.py:435-501 | what passes all checks matched its frame's identity, epoch and age limits, was admitted, is not prohibited, and was judged before the stop event |
| LiveScheduler.JudgeKeeps | src/viskium/runtime/live.py:435-501 | judging a frame gives it exactly one outcome unless a clock, gate answer, identity or size escapes |
| LiveScheduler.PublishKeeps | src/viskium/runtime/live.py:502-515 | publication keeps outcomes, honesty and the limit of one observation after the stop event |
| SchedulerObject.LiveScheduler.Process | src/viskium/runtime/live.py:435-515 | each of the fifteen ends of a frame is an equivalence over the limits, the frame and what the world answered; it raises the counter that names its end and no other, but for unreadable epochs and what tells more of the end, or none if an exception escapes |
| SchedulerObject.LiveScheduler.Accept | src/viskium/runtime/live.py:471-515 | the same for the checks on a result and its publication |
| SchedulerObject.PublishedExactly | src/viskium/runtime/live.py:435-515 | a frame is published if and only if its publication would honour all that is promised, the world answers all it is asked, no stop comes in between and the slot is open |
| SchedulerObject.SettlingCountsOnce | src/viskium/runtime/live.py:435-515 | what the end of a frame does to every counter |
| SchedulerObject.WorkerGoesOn | src/viskium/runtime/live.py:409-430 | the worker leaves its loop only for a stop, a closed and empty slot or an exception |
| Pipeline.EveryRunDelivers | src/viskium/runtime/live.py:409-531 | end to end through controller, slot and scheduler: published frames ascend strictly by epoch and sequence, each had the negotiated shape and was accepted after its epoch's warm-up, each observation honours its frame, every taken frame has exactly one outcome, and at most one observation is published after the stop event |
| Pipeline.RunKeeps | src/viskium/capture/latest.py:53-96 | taken frames are accepted ones in ascending order, and the pending frame is the newest accepted |
| PipelineProgress.FramesGoThrough | src/viskium/runtime/live.py:409-515 | from a streaming camera, an open slot and a running scheduler, any number of frames read in time are all published, in order, as long as the world answers well for each |
| WorkerProtocol.NegotiatedIsAccepted | src/viskium/adapters/opencv_process_camera.py:805-838 | the parent accepts every configuration a worker announces, whatever the driver reports |
| WorkerProofs.EveryRunStaysInStep | src/viskium/adapters/opencv_process_camera.py:434-788 | over any number of launches and reads, open meets a message its phase does not understand only from a worker that lost one, the backend may be reopened only when its process is gone, and with the backend open both pipes are empty and the worker waits if and only if no read let an exception out with its reply still to come, or took the worker's last reply with one, for a worker that neither crashed, nor lost a message, nor fell into its last handler |
| WorkerProofs.OpenMeansInStep | src/viskium/adapters/opencv_process_camera.py:660-736 | the same equivalence for one reachable session |
| WorkerProofs.GuardedRunsStayInStep | src/viskium/adapters/opencv_process_camera.py:660-683 | while every clock reading is in range and leaves no more time than poll accepts, and nothing else raises past the handlers, open never leaves process and pipe held by an exception and an open backend is in step |
| WorkerProofs.GuardIsExact | src/viskium/adapters/opencv_process_camera.py:674-683 | where read computes its wait, it returns by an exception with its command unanswered if and only if that guard fails, short of an exception of the pipe |
| WorkerProofs.StrandingIsExact | src/viskium/adapters/opencv_process_camera.py:228-247 | where open computes its wait, it is left with process and pipe held if and only if the clock raises something foreign or leaves more time than poll accepts |
| WorkerProofs.UnguardedReadBreaksStep | src/viskium/adapters/opencv_process_camera.py:674-683 | for every deadline and reading the guard refuses, a run that leaves the backend open with a command in the pipe |
| WorkerProofs.PollOverflowBreaksStep | src/viskium/adapters/opencv_process_camera.py:677-679 | in particular for a valid reading and a deadline further off than poll accepts |
| WorkerProofs.PollOverflowStrandsOpen | src/viskium/adapters/opencv_process_camera.py:228-234 | the same deadline leaves open with process and pipe held and no stream |
| WorkerProofs.WorkerKeepsOrder | src/viskium/adapters/opencv_process_camera.py:256-310 | the worker's phases send exactly the scripted messages or one error that ends them, over both bootstraps, until one is lost |
| WorkerProofs.RunKeeps | src/viskium/_camera_worker_bootstrap.py:25-51 | every step of parent or worker keeps script, pipes and command accounting in agreement |
| WorkerDecisions.NegotiationIsExact | src/viskium/adapters/opencv_process_camera.py:804-838 | a worker announces a configuration for exactly the readings that say it in whole numbers within the limits, and takes a rate of 0 for none |
| WorkerDecisions.AcceptedIsAnnounced | src/viskium/adapters/opencv_process_camera.py:613-653 | the parent accepts exactly the configurations that a worker can announce within both limits on a frame |
| WorkerDecisions.TimeLeftDecides | src/viskium/adapters/opencv_process_camera.py:175-189 | a wait begins exactly when deadline and reading are in range and the time between them is above zero and within what poll accepts; every other end of the computation is decided too |
| WorkerDecisions.MalformedDecides | src/viskium/adapters/opencv_process_camera.py:502-658 | open calls a message malformed exactly when it is neither the one its phase waits for nor the error that phase knows |
| WorkerDecisions.ReplyDecides | src/viskium/adapters/opencv_process_camera.py:684-736 | a reply keeps the backend open exactly when it is a frame of the negotiated shape, a disconnect or a recoverable error |
| WorkerDecisions.WorkingDeviceOpens | src/viskium/adapters/opencv_process_camera.py:434-658 | from every state without a worker, over both bootstraps, a device that works is opened with the stream its driver reports, and nothing is left in the pipe |
| WorkerDecisions.ReadsAreAnswered | src/viskium/adapters/opencv_process_camera.py:660-736 | any number of reads of an open backend, sent in time, get the worker's own replies, one each and in order, and leave everything else as it was |
| WorkerDecisions.CloseEnds | src/viskium/adapters/opencv_process_camera.py:738-788 | a backend that is open, or that a failed open left behind, can be closed, and can be opened again exactly when its process is gone |
| CameraBackendObject.OpenCVProcessCameraBackend.Open | src/viskium/adapters/opencv_process_camera.py:434-658 | succeeds exactly when the process starts and every step after it goes, the request on Windows among them; raises past its handlers exactly when a step does so before any fails, and then process and pipe stay held with no stream; any other failure leaves the backend not open, and reopenable exactly when no process was left alive |
| CameraBackendObject.OpenCVProcessCameraBackend.TerminateWorker | src/viskium/adapters/opencv_process_camera.py:752-788 | always gives up the pipe and the stream; terminates a started process exactly when the first look does not find it gone, kills it exactly when the second does not, and keeps it and raises exactly when the third does not |
| CameraBackendObject.OpenCVProcessCameraBackend.Read | src/viskium/adapters/opencv_process_camera.py:660-736 | one call of read is a step of the protocol and ends in its state; each of its ends is decided, both ways: a frame and the other answers exactly when a reply arrives in time and is judged so, running out of time, a broken pipe, and an exception that escapes |
| CameraBackendObject.EscapeLeavesTrouble | src/viskium/adapters/opencv_process_camera.py:660-683 | an escaping call leaves its command or its reply to a later read exactly when the command went out and no reply was taken |
| CameraBackendObject.OpenCVProcessCameraBackend.Close | src/viskium/adapters/opencv_process_camera.py:738-750 | leaves the backend not open and raises exactly when the process survives |
| Replay.FaithfulLoop | src/viskium/runtime/replay.py:145-172 | the loop processes exactly the closed-form schedule, drops the rest in order, busies the processor 25 ms for each, and never takes its last branch |
| Replay.RunSyntheticReplay | src/viskium/runtime/replay.py:101-195 | both modes' processed and dropped sequences and virtual duration, for every admissible frame count, and refusal of the others |
| ReplayStore.ReplaysAreAccepted | src/viskium/runtime/replay.py:124-190 | in both modes, with any processor that has one key for each frame and documents within the store's allowance, every put into the replay's own store is accepted with the next sequence number, and the store ends with exactly the observations of the processed frames, in order, and the sum of their bytes |
| DigestProcessor.KeysAreDistinct | src/viskium/adapters/deterministic_processor.py:18-48 | the keys the deterministic processor gives to two frames differ whenever their sequence numbers do, whatever the checksums |
| DigestProcessor.DocumentBytes | src/viskium/adapters/deterministic_processor.py:18-48 | the document of its observation of any frame with a sequence number below 100000 has at most 1682 bytes, less than the replay's store allows for each frame |
| ReplayStore.ReplayDigestsAreAccepted | src/viskium/runtime/replay.py:124-190 | so the deterministic processor is such a processor, and the store of every replay accepts every processed frame, in order |
| ReplayStore.RunReplay | src/viskium/runtime/replay.py:101-195 | the whole report in both modes, for every admissible frame count: everything processed is accepted and nothing coalesced or rejected, the checksums are those of the processed frames in order, and the byte count is the sum of their documents, within the allowance |
| Replay.TurnIsNewest | src/viskium/runtime/replay.py:145-172 | the k-th later frame, ceil(5k/2) - 1, is the last to arrive before 25k ms |
| Replay.ScheduleIsIncreasing | src/viskium/runtime/replay.py:145-172 | the schedule is strictly increasing, within range, contains the first and the last frame, and has 2 + floor(2(n-1)/5) entries for n of at least 2 |
| Replay.SkippedIsTheRest | src/viskium/runtime/replay.py:65-67 | processed and dropped frames partition the produced ones |
| PolygonFill.CrossingsAreEven | src/viskium/agent/vision_challenge.py:206-210 | every closed polygon crosses every scan line an even number of times |
| PolygonFill.CrossingIsBetween | src/viskium/agent/vision_challenge.py:209-210 | a selected edge has no zero divisor and its floor-divided crossing lies between its ends |
| PolygonFill.CrossingIsExact | src/viskium/agent/vision_challenge.py:209-210 | the computed crossing is the exact one rounded down, whatever the edge's direction |
| PolygonFill.InsideIsExact | src/viskium/agent/vision_challenge.py:200-213 | a pixel is coloured if and only if an odd number of edges crosses its scan line left of it or one crosses it within the pixel, in exact arithmetic on the corners |
| PolygonFill.SortedPairsAreEvenOdd | src/viskium/agent/vision_challenge.py:211-213 | filling between sorted pairs is the even-odd rule on the crossings in any order |
| PolygonFill.SlicesFillSafely | src/viskium/agent/vision_challenge.py:178-184 | the slice assignments of a rectangle keep the length of the canvas if and only if no row of it ends in a slice that deletes bytes, and then colour exactly its clipped pixels |
| PolygonFill.Canvas.Rect | src/viskium/agent/vision_challenge.py:178-184 | makes the slice assignments of its rows, for any edges and any canvas; on a canvas of full length it keeps the length if and only if the rectangle is safe, and then colours exactly the clipped rectangle's bytes, channel by channel, and no others |
| PolygonFill.Canvas.FillPolygon | src/viskium/agent/vision_challenge.py:200-213 | raises exactly for no points; for points anywhere, every scan line keeps the length of a full canvas if and only if the polygon is safe, and then it colours exactly the pixels inside by the even-odd rule and leaves every other byte alone |
| PolygonFill.PolygonSlicesFillSafely | src/viskium/agent/vision_challenge.py:200-213 | the slice assignments of a polygon keep the length scan line by scan line if and only if no pair of crossings makes a row that deletes bytes, and then colour exactly the pixels inside |
| PolygonFill.RectShows | src/viskium/agent/vision_challenge.py:178-184 | pixel by pixel: a safe rectangle puts its red, green and blue, in that order, on exactly its pixels of the canvas |
| PolygonFill.PolygonShows | src/viskium/agent/vision_challenge.py:200-213 | the same of a safe polygon and the pixels inside it |
| PolygonFill.LeftRectangleShrinks | src/viskium/agent/vision_challenge.py:178-184 | a rectangle of one row that ends at column -1 leaves three bytes of any full canvas |
| PolygonFill.LengthCanComeBack | src/viskium/agent/vision_challenge.py:178-184 | a row assigned to a canvas that an earlier one shortened can bring the length back, so a right length at the end does not show that nothing was deleted |
| PolygonFill.NoPointFarLeftIsSafe | src/viskium/agent/vision_challenge.py:200-213 | no point left of column -1 is enough for that |
| Png.TargetIsBounded | src/viskium/snapshots/png.py:45-50 | target edges lie between 1 and the limit and never grow; the aspect is kept up to rounding the shorter edge down, unless it is clamped to 1 |
| Png.SamplesIncrease | src/viskium/snapshots/png.py:80-85 | source indices are in bounds and strictly increasing |
| Png.OffsetInBounds | src/viskium/snapshots/png.py:53-86 | the checks on a frame keep every sampled byte inside its payload |
| Png.ImageHoldsPixels | src/viskium/snapshots/png.py:73-96 | byte by byte: each scan line begins with 0, and channel k of its pixel x is that byte of the payload which holds channel k, or 2 - k for bgr24, of source pixel (floor(xW/w), floor(yH/h)) |
| Png.ContainerParses | src/viskium/snapshots/png.py:39-42 | a reader of sections 3.1, 3.2 and 4.1 of RFC 2083 recovers size, colour type and data from the container, for any checksum function |
| Png.EncodePngSnapshot | src/viskium/snapshots/png.py:99-172 | refuses invalid input, answers too large exactly when 57 bytes plus the compressed data exceed the limit, else returns a parseable picture of exactly that length, and never fires its last size check |
| Png.EncodedShowsSource | src/viskium/snapshots/png.py:99-162 | with a decompressor that undoes the compressor, the same holds of every byte of an encoded picture's scan lines |
| Consent.AllowedMeansCovered | src/viskium/agent/contracts.py:190-224 | a request is allowed if and only if a grant covers it: in scope, unexpired, within the ceiling, not prohibited, with attempts left for a snapshot |
| Consent.RefusalDecides | src/viskium/agent/contracts.py:190-224 | every refusal has the reason of the first test that fails, in the order of the source, with the classes that each ceiling admits |
| Consent.DecodeFile | src/viskium/agent/consent.py:170-190 | whatever is decoded is a valid state, in particular its generation is its attempts plus one |
| Consent.DecodeDecides | src/viskium/agent/consent.py:170-394 | a file decodes to a state exactly when it is within its byte ceiling, is strict JSON, has the ten fields and no other with exactly that state's values, and the state is within its bounds |
| JsonParser.StrictRefusesRepeats | src/viskium/agent/consent.py:109-115 | the reader of the consent file takes the members of an object exactly when no name repeats another |
| ConsentSize.WrittenStateIsReadBack | src/viskium/agent/consent.py:305-394 | every valid state fits the file's byte ceiling, and decoding what was written gives the same state |
| ConsentLedgers.ConsentLedger.Write | src/viskium/agent/consent.py:305-346 | replaces the file whole or not at all, also when an error follows the replacement |
| ConsentLedgers.ConsentLedger.GrantConsent | src/viskium/agent/consent.py:192-237 | a grant is stored with no attempts exactly when its arguments are in range, the lock is obtained and the replacement happens, and is returned exactly when the lock is given back too |
| ConsentLedgers.ConsentLedger.Revoke | src/viskium/agent/consent.py:239-252 | removes the file and tells whether there was one; a lock that is not obtained or not given back, and a file that cannot be inspected, make it an error whether there was a file or not |
| ConsentLedgers.ConsentLedger.ReserveSnapshot | src/viskium/agent/consent.py:254-284 | consumes one attempt exactly when the grant on file covers the request and has one left, and reports a reservation only once it is on file; a refusal becomes an error when the file cannot be read or the lock not given back |
| SnapshotConsent.EveryRunRespectsConsent | src/viskium/agent/service.py:868-1012 | under any interleaving with identifiers never reused, captures under a grant never exceed its quota, the file's generation counts its attempts, and every delivered picture was re-authorized after capture against the very grant it was reserved under, unexpired and in scope |
| SnapshotDecisions.ReserveDecides | src/viskium/agent/consent.py:254-284 | an attempt is counted exactly when the grant on file covers the request and has one left and the file is replaced, and the call has it exactly when the replacement succeeds |
| SnapshotDecisions.ReturnDecides | src/viskium/agent/service.py:944-1012 | a picture is handed out exactly when the grant it was reserved under is still on file and covers it at that time |
| SnapshotDecisions.CoveredCallsAreHonoured | src/viskium/agent/service.py:868-1012 | calls one after another that a grant covers are all honoured up to its quota, each for one attempt, with their pictures handed out in order |
| ConsentFileRuns.StepTracks | src/viskium/agent/consent.py:192-284 | every call on the bytes of the file, however it ends, is a step over the states, and leaves the file readable |
| ConsentFileRuns.EveryFileRunRespectsConsent | src/viskium/agent/consent.py:170-346 | the same bounds hold of the file itself over every interleaving: it can always be read, its generation counts its attempts, and captures never exceed the quota |

## Left out

- OpenCV, subprocess launch, handle inheritance and pickling: foreign calls; only their messages, exit facts, failures and exceptions appear.
- Windows worker entry point failures before its first message, and the reason strings of worker errors: the machine keeps the kinds of messages only.
- Text values with lone surrogates: Dafny characters are Unicode scalar values, so strings the encoder would refuse with `UnicodeEncodeError` do not arise.
- Float formatting and parsing: a float is carried as the text `json.dumps` prints, and only its shape is checked.
- StoreAgreement.SqliteSimulatesMemory: about an equality that means equal documents. In Python `1`, `1.0` and `True` are equal but have different documents, so the real in-memory store may coalesce where the transactional one reports a conflict.
- Provenance given as a JSON object: rebuilding an envelope treats it as rejected.
- SQLite pragmas, schema text, file footprints, error-code tables and owner-thread checks: a statement succeeds or fails with an error kind. Text columns are taken to hold what was written.
- A failed rollback leaves the transaction open; its uncommitted rows then show in the connection but not in the file, and the theorems about the file say so.
- A `thread.start` of the writer that raises, and `BaseException` in its worker: not modelled.
- Thread, condition and event objects, the controller's metrics counters and reason codes: the worker's position is a value, and a stop caller's join is a step that finds the worker alive or not.
- Frame envelope validation inside the controller: a failure there is the step `Raise`.
- Snapshot provider metrics and reason codes: counters and texts beside the outcomes.
- File lock: permission, reparse-point and sentinel checks are one flag, and closing a descriptor that a taken registry makes useless is taken to succeed.
- LiveScheduler start and stop lifecycle, the writer it owns and persistence outcomes: the publication path is modelled, the rest would add only easy members.
- Replay.RunSyntheticReplay: the report here has no receipts, CRC values or store bytes; `ReplayStore.RunReplay` completes it, with the puts after the loop rather than inside it, and with CRC-32 and the equality of observations as any functions.
- Consent.DecodeFile: a schema version written as a float equal to 1, and text that `json.loads` would take for UTF-16, UTF-32 or UTF-8 with a byte order mark, are refused here and accepted by Python; no written file has any.
- Consent file links, permissions and directory syncing: folded into how a replacement ends.
- Restoring an old consent file from outside: the quota theorem is about the ledger's own operations.
- Vision challenge text, glyphs, circles, challenge storage and verification: easy once the raster fill is known.
- Compressor exceptions and memory errors in the PNG encoder; CRC-32 and DEFLATE themselves.
- Budget policy, resource gates, snapshot broker, latest-observation slot, request admission, MCP wiring, CLI, configuration, data-root layout and doctor: small or plumbing.
