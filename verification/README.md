# Faultline coordinator: a verified model

Faultline is a durable job coordinator. Clients submit jobs, workers register over
TCP, and the coordinator hands each queued job to one worker at a time, retrying an
attempt that fails or whose worker is lost up to the job's retry limit. Every change
of state is prepared on a scratch copy, appended and synced to a write-ahead log, and
only then published. On restart the log is replayed, validated and reconciled.

This project models that system in Dafny and proves, for every run, what it promises.

## How the model is organised

The model has two layers.

*Values.* Each component is first described by datatypes and functions: the job
record (`Job.dfy`), the job store and its queue (`Scheduler.dfy`), the worker registry
(`Registry.dfy`), the log format (`Bytes.dfy`, `Crc.dfy`, `WalFormat.dfy`), replay
(`History.dfy`, `Replay.dfy`), the log writer (`Writer.dfy`), the store (`Store.dfy`),
startup (`Startup.dfy`), the wire protocol (`Protocol.dfy`), statistics and listings
(`Statistics.dfy`, `Listings.dfy`) and the event loop (`EventLoop.dfy`). The theorems
are stated here, over every input, run and environment.

*Objects.* The C code works in place, and so do the classes and loops of
`JobRecord.dfy`, `JobQueue.dfy`, `JobStore.dfy`, `WorkerRegistry.dfy`,
`WorkerIndex.dfy`, `LogWriter.dfy`, `LogReader.dfy`, `CoordinatorStore.dfy`,
`StatsCollector.dfy`, `ListingLoops.dfy`, `ProtocolLoops.dfy`, `Tasks.dfy` and
`Coordinator.dfy`. Each operation is proved equal to the value-level function it
implements, so the theorems apply to the objects: `Coordinator.Run` leaves exactly the
state `RunLoop` gives, `CoordinatorStore.Open` the state `OpenExisting` gives, and
`RunCoordinator` states the crash and lease theorems on the objects themselves.

The environment is a script: a finite list of outcomes, one for each system call
(interrupted, failed, or completed with a byte count). A script that runs out stands
for a process killed inside the call. A statement about all scripts is a statement
about every partial write, failed sync and crash point.

A store operation is `PlanFor` (prepare a transaction, or refuse) followed by `Carry`
(append, sync, publish). `Durability.PlanIsSound` is the hinge of the crash theorem:
every transaction the store prepares is a record that replay accepts, with the
prepared store as the result.

## Main results

- `Sessions.CrashRefinement` and `Sessions.OperationIsAtomic`: after any sessions,
  operations, partial writes, failed syncs and crashes, replay of the surviving bytes
  succeeds and gives what was published last, or that advanced by the one transaction
  in flight.
- `Recovery.StartupIsConfluent`, `Recovery.SettleEffect` and
  `Recovery.StartupCanSucceed`: reconciliation charges each interrupted attempt once,
  keeps every other record, ends in the same state and the same log bytes however often
  it is interrupted, and can succeed exactly if the sequence numbers suffice.
- `ReplayModel.AcceptedFile`: whatever bytes replay accepts are a valid header, a
  contiguous run of legal transitions and at most one torn record.
- `LoopSafety.NoOrphanedLease` and `LoopSafety.AssignmentInEveryRun`: in every run of
  the event loop, the lease of every active job is held by a live worker on exactly one
  open connection, and a scheduling round commits or ends the run.
- `LoopSessions.LoopLeavesItsLog` and `Coordinators.RunCoordinator`: every run of the
  event loop is a run of sessions, so the crash theorem covers it, in service or ended;
  and the same holds of the objects, from opening the storage on.
- `Sessions.HealthyStoreOk`, `Sessions.InternalFailureUnreachable`,
  `Sessions.AppendRefusalUnreachable` and `Sessions.FatalIsFinal`: the scheduler
  invariant holds in every run, the error results it rules out are unreachable, startup
  included, and nothing is written after a fatal result.
- `WalCodec.RecordDecodes`, `RecordCanonical`, `PrefixIncomplete` and `DamageDetected`:
  the log codec is a bijection on valid records, torn records are recognised, and every
  changed byte is detected.
- `Lifetime.BoundedLife`, `Sessions.PastIsSettled` and
  `Sessions.StaleReportChangesNothing`: a job has a bounded life, finished jobs never
  change, and reports of attempts that are over have no effect.
- `Promises.WorkerIdsAreUnique`, `Promises.JobIdsAreUnique` and
  `Promises.AcknowledgedJobIsKept`: over any run with kills and restarts no ID is issued
  twice and no acknowledged job is lost.
- `ProtocolCodec.MessageDecodes`, `MessageCanonical`, `PrefixTooSmall`,
  `Framing.FramingIsExact` and `Tracing.FramingInEveryRun`: the message codec and its
  incremental framing are exact, on a byte stream and in every run of the event loop.
- `LoopReplies.SnapshotAvailable` and `LoopReplies.RepliesEncode`: statistics fail only
  through the clock, and no reply is ever refused by the encoder.
- `StatsCollectors.AverageLatency`, `Tasks.PrimeCount` and `Tasks.Fibonacci`: the
  numeric code computes what it is meant to, in 64 bits.

## Model

| member | source | states |
|---|---|---|
| `Sessions.CrashRefinement` | src/coordinator/coordinator_store.c:42-147 | After any sequence of starts, operations, registry updates and kills on an initialized log, with any I/O script, the file replays to the published jobs, queue, allocators and time, or to those advanced by one accepted record |
| `Sessions.OperationIsAtomic` | src/coordinator/coordinator_store.c:42-147 | However one operation's append is cut, replay finds the state before it or exactly the state it prepared, and the latter whenever it reported OK |
| `Sessions.HealthyStoreOk` | src/coordinator/scheduler.c:51-186 | In every run, a process without a latched failure satisfies the scheduler and registry invariants and agrees with its log |
| `Sessions.InternalFailureUnreachable` | src/coordinator/coordinator_store.c:85-193 | In every run no process has latched an internal failure, no operation of a healthy process prepares one, and no startup on the file left at that point ends in one |
| `Sessions.AppendRefusalUnreachable` | src/coordinator/wal_writer.c:182-202 | A prepared record is never refused as invalid or out of sequence; an append fails only through I/O or exhausted sequence numbers |
| `Sessions.RefusalPublishesNothing` | src/coordinator/coordinator_store.c:53-147 | For every store: a result other than OK changes nothing but the writer state and the latched fault |
| `Sessions.FatalIsFinal` | src/coordinator/coordinator_store.c:7-17 | Once an operation of any run returns fatal, nothing was published by it, and for every continuation in which the process is not killed each later operation is fatal without I/O and the file and the published state stay as they are |
| `Sessions.PastIsSettled` | src/coordinator/job.c:34-62 | Over any continuation of any run, restarts included, DONE and FAILED records never change and ended attempts stay ended |
| `Sessions.StaleReportChangesNothing` | src/coordinator/scheduler.c:132-168 | Over any continuation of any run, a report of an ended attempt is refused without I/O and without any change to jobs or workers |
| `Promises.RunGrows` | src/coordinator/wal_replay.c:179-223 | Over any run, what replay of the log finds only grows: its jobs progress, its worker IDs stay and its highest IDs never fall |
| `Promises.WorkerIdsAreUnique` | src/coordinator/coordinator_store.c:67-83 | Over any run with kills and restarts, a later successful registration issues a higher worker ID, one that replay of the log does not find, not even in a complete record whose append reported failure |
| `Promises.JobIdsAreUnique` | src/coordinator/coordinator_store.c:85-101 | Over any run with kills and restarts, a later successful submission issues a higher job ID, above every ID that replay of the log finds |
| `Promises.AcknowledgedJobIsKept` | src/coordinator/coordinator_store.c:85-101 | Once a submission has succeeded, in every continuation of the run both the log and what is published hold the job as submitted |
| `Durability.PlanIsSound` | src/coordinator/coordinator_store.c:67-166 | Every prepared transaction is a valid record with the next sequence number that replay accepts with the prepared store as its result; every refusal is a rejection, nothing to do, or a clock failure |
| `Durability.CarryCommits` | src/coordinator/coordinator_store.c:42-65 | A carried-out transaction publishes exactly the prepared store with the record at the end of the file, or leaves a prefix of the record and publishes nothing |
| `Durability.RecoveryIsExact` | src/coordinator/wal_replay.c:179-223 | A file holding a prefix of one in-flight record replays to the published state or that state advanced by that record |
| `Logging.SubmitIsReplayable` | src/coordinator/scheduler.c:51-79 | An accepted submission is a creation record that replay accepts with the same store, and is never a queue error |
| `Logging.DispatchIsReplayable` | src/coordinator/scheduler.c:81-119 | Dispatch to an issued worker fails only with busy or empty, and an accepted one is replayable |
| `Logging.ReportIsReplayable` | src/coordinator/scheduler.c:132-168 | An accepted report is replayable and changes exactly the job its worker holds, although scheduler and store look it up differently |
| `Logging.LossIsReplayable` | src/coordinator/scheduler.c:170-186 | Losing a worker with an active job always succeeds, requeues or fails that job, and is replayable |
| `Recovery.StartupIsConfluent` | src/coordinator/coordinator_store.c:176-227 | However often and wherever startup is interrupted, the attempt that succeeds publishes the same state and leaves the same log bytes as an uninterrupted one |
| `Recovery.SettleEffect` | src/coordinator/coordinator_store.c:176-193 | With a sequence number left for each active job, reconciliation leaves no active job, charges each interrupted attempt once, keeps all other records and appends the retried IDs to the queue in ascending order |
| `Recovery.SettleCompletes` | src/coordinator/coordinator_store.c:176-193 | Reconciliation can be completed if and only if the sequence numbers left are at least the number of active jobs |
| `Recovery.StartupCanSucceed` | src/coordinator/coordinator_store.c:195-227 | Some environment lets a startup on an accepted file succeed if and only if the clock is not negative and the sequence numbers suffice |
| `Recovery.OpenOutcome` | src/coordinator/coordinator_store.c:195-227 | Every startup outcome leaves a replayable file with the same reconciliation goal; success reaches the goal, failure publishes only what the file recovers to and latches a log failure unless the process was killed |
| `Settlement.ReconcileSettles` | src/coordinator/coordinator_store.c:152-193 | From any slot, the reconciliation loop either completes the goal or stops with a file from which the goal is still reached |
| `ReplayModel.AcceptedFile` | src/coordinator/wal_replay.c:179-223 | An accepted file is the header, gap-free encoded records each legal after those before it, and at most one torn record; the state satisfies the full invariant |
| `ReplayModel.ReplayAppend` | src/coordinator/wal_replay.c:179-223 | Replaying a complete log and then more equals replaying both at once |
| `ReplayModel.ReplayRecord` | src/coordinator/wal_replay.c:179-223 | One whole record advances the history by it; every strict prefix of it is an unapplied tail |
| `HistoryModel.ApplyKeepsOk` | src/coordinator/wal_replay.c:79-156 | Every accepted record keeps the whole invariant, advances the sequence number and never moves time backwards, gaps in IDs included |
| `HistoryModel.AcceptedSnapshot` | src/coordinator/wal_replay.c:86-141 | An accepted snapshot is a new queued job or follows the held record by one legal transition |
| `SchedulerModel.EnlistOk` | src/coordinator/scheduler.c:72-77 | Adding a queued job with a higher ID keeps the invariant |
| `SchedulerModel.ReplaceOk` | src/coordinator/scheduler.c:121-130 | Replacing a record by a successor keeps increasing IDs, exclusive leases and a queue of exactly the queued jobs |
| `SchedulerModel.RoomToRequeue` | src/coordinator/scheduler.c:5-7 | The queue always has room for a job that is not in it |
| `JobModel.AssignOk` | src/coordinator/job.c:93-112 | Assigning a valid job succeeds exactly when it is queued, a worker is named and time has not gone back, and gives a valid successor one attempt further |
| `JobModel.StartOk` | src/coordinator/job.c:114-130 | Starting succeeds exactly for the assigned worker and attempt, and gives a valid running successor |
| `JobModel.CompleteOk` | src/coordinator/job.c:132-157 | Completing succeeds exactly for the running worker and attempt with a result that fits, and gives a valid finished successor |
| `JobModel.FailOk` | src/coordinator/job.c:159-192 | Failing succeeds exactly for the worker and attempt of an active job, and gives a valid successor that is queued again while retries are left and failed otherwise |
| `JobModel.ValidKindIsUnique` | src/coordinator/wal_format.c:98-144 | A record is a valid snapshot for one record type only |
| `Lifetime.BoundedLife` | src/coordinator/job.c:159-192 | In any accepted log a job has at most max_retries + 1 attempts and 3 * max_retries + 4 records |
| `Lifetime.StaleReportRejected` | src/coordinator/job.c:49-62 | A report of an ended attempt is rejected by the scheduler and never as a queue error |
| `Lifetime.ApplyProgresses` | src/coordinator/wal_replay.c:79-156 | Every accepted record only progresses jobs: none is lost or reordered and the remaining budget falls |
| `WalCodec.RecordDecodes` | src/coordinator/wal_format.c:223-256 | Decoding an encoded record gives it back and consumes exactly its bytes, whatever follows |
| `WalCodec.RecordCanonical` | src/coordinator/wal_format.c:298-322 | Accepted bytes re-encode to the same bytes and carry the expected sequence number |
| `WalCodec.PrefixIncomplete` | src/coordinator/wal_format.c:298-322 | Every strict prefix of an encoded record is incomplete |
| `WalCodec.DamageDetected` | src/coordinator/wal_format.c:173-199 | Changing any byte of a complete record always decodes to a bad checksum, or to a wrong sequence number where that was expected anyway, and never to incomplete |
| `WalCodec.MatchesSnapshot` | src/coordinator/wal_replay.c:66-77 | Comparing canonical bytes holds exactly when every persisted field agrees |
| `WalFormat.JobDecodes` | src/coordinator/wal_format.c:201-221 | A valid job payload decodes to the job |
| `WalFormat.JobCanonical` | src/coordinator/wal_format.c:271-296 | An accepted job payload is the encoding of the job it gives, which is valid for its type |
| `WalFormat.HeaderCanonical` | src/coordinator/wal_format.c:173-199 | An accepted record header is the encoding of what it gives |
| `WalFormat.FileHeaderCanonical` | src/coordinator/wal_format.c:159-171 | Only the exact header bytes are accepted |
| `Crc.Crc32` | src/coordinator/wal_format.c:56-66 | The bit-by-bit loop computes the checksum |
| `Crc.ByteChangesChecksum` | src/coordinator/wal_format.c:56-66 | Changing any one byte of any data changes the checksum |
| `WriterModel.AppendOutcome` | src/coordinator/wal_writer.c:182-202 | An attempted append leaves a prefix of the record at the end of the file, all of it on success, and latches on every I/O error |
| `WriterModel.WriteAllPrefix` | src/coordinator/wal_writer.c:73-91 | Under every script some prefix of the data reaches the file, all of it on success |
| `WriterModel.LatchedWriterIsSilent` | src/coordinator/wal_writer.c:182-188 | A writer that is not ready, or has no sequence number left, performs no I/O |
| `RegistryModel.RegisterOk` | src/coordinator/worker_registry.c:47-81 | Registration issues a fresh live ID and keeps every live worker |
| `RegistryModel.HeartbeatOk` | src/coordinator/worker_registry.c:106-125 | A heartbeat keeps the registry invariant and who is alive |
| `RegistryModel.MarkDeadOk` | src/coordinator/worker_registry.c:127-140 | Marking dead ends exactly that worker |
| `LoopSafety.NoOrphanedLease` | src/coordinator/main.c:108-143 | From any successful startup, through every possible event sequence without a latched failure: each active job's worker is alive and bound to exactly one open client, no client has both roles, and every reading client holds fewer bytes than it expects |
| `LoopSafety.AssignmentInEveryRun` | src/coordinator/main.c:543-573 | In every run, under the guards of the scheduling loop, an assignment is committed or ends the run |
| `LoopReplies.RepliesAreValid` | src/coordinator/main.c:193-240 | With the statistics baseline taken at startup, every status, listing and statistics reply built from a store reached in any run passes the wire validators |
| `LoopReplies.SnapshotAvailable` | src/coordinator/coordinator_stats.c:62-101 | In every run a snapshot is available if and only if the timeout is positive, time is not before the baseline and no live worker's heartbeat lies in the future |
| `LoopReplies.SessionBegins` | src/coordinator/coordinator_stats.c:43-60 | After every successful startup the baseline can be taken if and only if the clock has not gone back |
| `LoopReplies.BaselineHolds` | src/coordinator/coordinator_stats.c:69-76 | As jobs only progress, no count of a baseline ever falls |
| `LoopReplies.RepliesEncode` | src/coordinator/main.c:152-168 | In every run, each handled message and each scheduling round leads to a reply that encodes within the client's buffer and is sent, or to no reply at all, so no client is ever closed for an encoding error |
| `LoopReplies.AnswerIsQueued` | src/coordinator/main.c:242-377 | A handler gives the reply queue exactly the replies of `AnswerTo`; for any other message nothing is attempted: the connection is closed, waits for its next frame, or the loop has ended |
| `LoopReplies.ScheduledIsQueued` | src/coordinator/main.c:543-573 | A scheduling round gives the reply queue exactly the assignment it committed, and nothing otherwise |
| `LoopReplies.AckIsKept` | src/coordinator/main.c:288-306 | A job whose acknowledgement the loop queues is held, as submitted, by the log left after any later events, wherever the process is killed |
| `LoopSessions.LoopIsSession` | src/coordinator/main.c:575-688 | Every run of the event loop is a run of sessions: its handlers reach the store only through store operations and updates of the live registry |
| `LoopSessions.LoopLeavesItsLog` | src/coordinator/main.c:575-688 | Whether the loop is in service, latched or was killed, the file it leaves replays to what was published last or one record further, and no job was lost or moved backwards |
| `LoopSafety.CreateWrites` | src/coordinator/wal_writer.c:158-174 | A creation that succeeds leaves the header and nothing else |
| `LoopSafety.CreationLeavesPrefix` | src/coordinator/wal_writer.c:158-174 | However it is interrupted, a creation leaves a prefix of the header, which replays, to the empty history, if and only if it is the whole header |
| `Framing.FramingIsExact` | src/coordinator/main.c:379-451 | Whatever the fragmentation, the bytes received are the encodings of the messages handled and the buffer, so the messages handled are the first of the stream: all of them while the connection is open, with fewer bytes held than expected; after a refusal one is left over exactly if the refused frame is a bare header whose type the role forbids |
| `Tracing.FramingInEveryRun` | src/coordinator/main.c:379-451 | In every run and for every slot, the messages handed to the message handler since the connection was accepted are those of the stream of bytes read on it, all of them while the connection is open |
| `Tracing.HandedIsHandled` | src/coordinator/main.c:379-451 | The handler runs on a filled buffer exactly for the message it holds; otherwise the connection waits, asks for more or is closed |
| `ProtocolCodec.MessageDecodes` | src/common/protocol.c:449-598 | For all twenty types, decoding an encoded message gives it back and consumes exactly its bytes |
| `ProtocolCodec.MessageCanonical` | src/common/protocol.c:600-773 | Accepted frames re-encode to the same bytes |
| `ProtocolCodec.PrefixTooSmall` | src/common/protocol.c:600-773 | Every strict prefix of a valid frame is reported as too small |
| `Listings.StatusReplyIsValid` | src/common/protocol.c:225-253 | The status of a valid job passes the validator |
| `Listings.JobListingIsValid` | src/common/protocol.c:255-274 | The sorted job listing is the listing in store order and passes the validator |
| `Listings.WorkerListingIsValid` | src/common/protocol.c:276-295 | The sorted worker listing passes the validator |
| `Statistics.SnapshotIsValid` | src/common/protocol.c:297-331 | Every successful statistics snapshot passes the validator |
| `Statistics.HealthyJobsCountable` | src/coordinator/coordinator_stats.c:3-41 | Jobs that satisfy the invariant can always be counted |
| `StatsCollectors.AverageLatency` | src/coordinator/coordinator_stats.c:26-40 | The quotient and remainder loop gives the exact floored mean of all completed latencies in 64-bit arithmetic without overflow |
| `StatsCollectors.CollectJobs` | src/coordinator/coordinator_stats.c:3-41 | The loops give the exact totals, and refuse exactly the stores with a record that cannot be counted |
| `StatsCollectors.CountWorkers` | src/coordinator/coordinator_stats.c:83-98 | The registry loop counts every worker in its class, and refuses exactly heartbeats outside the clock |
| `StatsCollectors.BeginSession` | src/coordinator/coordinator_stats.c:43-60 | The baseline is that of the collected totals |
| `StatsCollectors.TakeSnapshot` | src/coordinator/coordinator_stats.c:62-101 | The computed payload is the snapshot defined by the totals |
| `WorkerIndexes.ExtendedRepresents` | src/coordinator/wal_replay.c:28-49 | Adding an ID above all others, adjacent or after a gap, represents exactly the set with that ID, in sorted, disjoint, non-adjacent ranges |
| `WorkerIndexes.WorkerIndex.Add` | src/coordinator/wal_replay.c:28-49 | In place, the index then represents the set with the new ID |
| `WorkerIndexes.WorkerIndex.Contains` | src/coordinator/wal_replay.c:51-62 | Binary search answers membership in the set of all allocated IDs |
| `JobRecords.JobRecord.Init` | src/coordinator/job.c:64-91 | In place: the initialised record, or an error and no change |
| `JobRecords.JobRecord.Assign` | src/coordinator/job.c:93-112 | In place: the assigned record, or an error and no change |
| `JobRecords.JobRecord.Start` | src/coordinator/job.c:114-130 | In place: the running record, or an error and no change |
| `JobRecords.JobRecord.Complete` | src/coordinator/job.c:132-157 | In place: the finished record, or an error and no change |
| `JobRecords.JobRecord.Fail` | src/coordinator/job.c:159-192 | In place: the requeued or failed record, or an error and no change |
| `JobQueues.JobQueue.Push` | src/coordinator/job_queue.c:8-33 | Across wraparound, appends to the FIFO contents, or rejects and changes nothing |
| `JobQueues.JobQueue.Peek` | src/coordinator/job_queue.c:35-46 | The head of the contents, if any |
| `JobQueues.JobQueue.Pop` | src/coordinator/job_queue.c:48-60 | Removes the head of the contents, across wraparound |
| `JobStores.JobStore.Locate` | src/coordinator/scheduler.c:15-23 | The first slot with this ID, or the count |
| `JobStores.JobStore.Active` | src/coordinator/scheduler.c:35-49 | The slot of the job this worker holds, or the count |
| `JobStores.JobStore.Submit` | src/coordinator/scheduler.c:51-79 | In place: the store with the new queued job and the ID it was given, or an error and no change |
| `JobStores.JobStore.Dispatch` | src/coordinator/scheduler.c:81-119 | In place: the head job leased to the worker and its assignment message, or an error and no change |
| `JobStores.JobStore.PublishOutcome` | src/coordinator/scheduler.c:121-130 | In place: the record replaced and requeued where queued, or an error and no change |
| `JobStores.JobStore.Report` | src/coordinator/scheduler.c:132-168 | In place: the reported outcome, or an error and no change |
| `JobStores.JobStore.WorkerLost` | src/coordinator/scheduler.c:170-186 | In place: the lost attempt's outcome, or an error and no change |
| `WorkerRegistries.WorkerRegistry.Register` | src/coordinator/worker_registry.c:47-81 | One pass finds the connection and the first free slot; in place or an error and no change |
| `WorkerRegistries.WorkerRegistry.Locate` | src/coordinator/worker_registry.c:14-24 | The slot of a retained worker, or the number of slots |
| `WorkerRegistries.WorkerRegistry.Live` | src/coordinator/worker_registry.c:83-104 | The slot of this live worker on this connection, or the reason there is none |
| `WorkerRegistries.WorkerRegistry.Heartbeat` | src/coordinator/worker_registry.c:106-125 | In place: the new heartbeat time, or an error and no change |
| `WorkerRegistries.WorkerRegistry.MarkDead` | src/coordinator/worker_registry.c:127-140 | In place: the worker dead and detached, or an error and no change |
| `LogWriters.LogWriter.WriteAll` | src/coordinator/wal_writer.c:73-91 | Over one system call at a time: the modelled write, latching on failure |
| `LogWriters.LogWriter.Sync` | src/coordinator/wal_writer.c:93-100 | Retries interruptions and latches on failure |
| `LogWriters.LogWriter.Create` | src/coordinator/wal_writer.c:158-174 | Writes the header and syncs file and directory before the writer is ready |
| `LogWriters.LogWriter.Append` | src/coordinator/wal_writer.c:182-202 | Result, writer and file are those of the modelled append |
| `LogWriters.LogWriter.ReadExact` | src/coordinator/wal_replay.c:159-177 | Through any short reads and interruptions, exactly the next bytes of the file, fewer only at its end |
| `LogReaders.ReplayState.AllocateWorker` | src/coordinator/wal_replay.c:28-49 | In place: the higher ID is allocated and indexed, or an error and no change |
| `LogReaders.ReplayState.Derive` | src/coordinator/wal_replay.c:86-138 | The record the job model derives for a snapshot, or the reason it is illegal |
| `LogReaders.ReplayState.ApplyRecord` | src/coordinator/wal_replay.c:79-156 | In place: the history after the record, or an error and no change |
| `LogReaders.ReplayState.ReadHistory` | src/coordinator/wal_replay.c:179-223 | If the file can be read, the outcome of the record-by-record reading is that of replaying its bytes |
| `LogReaders.Fetch` | src/coordinator/wal_replay.c:190-213 | Reading header and payload separately classifies the next bytes as the decoder classifies the whole rest of the file |
| `LogReaders.OpenLog` | src/coordinator/wal_replay.c:225-275 | Replay, repair and publication; on every rejection or failure the caller's jobs and workers are unchanged |
| `CoordinatorStores.CoordinatorStore.JobTime` | src/coordinator/coordinator_store.c:27-40 | The logical time of a clock reading, or a latched clock failure |
| `CoordinatorStores.CoordinatorStore.CommitJob` | src/coordinator/coordinator_store.c:53-65 | Log, then publish the scratch store and its time; nothing is published otherwise |
| `CoordinatorStores.CoordinatorStore.Register` | src/coordinator/coordinator_store.c:67-83 | In place: exactly the modelled registration |
| `CoordinatorStores.CoordinatorStore.Submit` | src/coordinator/coordinator_store.c:85-101 | In place: exactly the modelled submission |
| `CoordinatorStores.CoordinatorStore.Assign` | src/coordinator/coordinator_store.c:103-123 | In place: exactly the modelled assignment, and on success the message for the job that was dispatched |
| `CoordinatorStores.CoordinatorStore.Report` | src/coordinator/coordinator_store.c:125-147 | In place: exactly the modelled report |
| `CoordinatorStores.CoordinatorStore.CommitLoss` | src/coordinator/coordinator_store.c:152-166 | In place: exactly the modelled loss |
| `CoordinatorStores.CoordinatorStore.WorkerLost` | src/coordinator/coordinator_store.c:168-174 | In place: the loss, unless the store is closed or has failed |
| `CoordinatorStores.CoordinatorStore.RecoverInterrupted` | src/coordinator/coordinator_store.c:176-193 | The loop over slots is the modelled reconciliation |
| `CoordinatorStores.CoordinatorStore.Open` | src/coordinator/coordinator_store.c:195-227 | Opening an existing log reports and leaves what the startup model says; nothing is published unless replay and repair succeed, and a failed open leaves a latched fault |
| `CoordinatorStores.CoordinatorStore.OpenNew` | src/coordinator/coordinator_store.c:195-227 | Opening a new log reports and leaves what the creation model says, and a failed creation leaves a latched fault |
| `Coordinators.Coordinator.CloseClient` | src/coordinator/main.c:108-143 | In place: the lease is settled, the worker detached and the slot freed, as in the event model |
| `Coordinators.Coordinator.QueueMessage` | src/coordinator/main.c:152-168 | In place: the encoded reply is queued, or the client is closed |
| `Coordinators.Coordinator.HandleListing` | src/coordinator/main.c:193-240 | In place: the listing, built by the entry loops, is queued as in the event model |
| `ListingLoops.ListJobs` | src/coordinator/main.c:200-214 | The entry loop and the sort give the job listing |
| `ListingLoops.ListWorkers` | src/coordinator/main.c:215-238 | The registry loop and the sort give the worker listing, or nothing exactly if a heartbeat lies outside the clock |
| `Coordinators.Coordinator.HandleMessage` | src/coordinator/main.c:242-377 | In place: every message type is handled as in the event model |
| `Coordinators.Coordinator.HandleFrame` | src/coordinator/main.c:409-450 | In place: role check, length and dispatch of a frame |
| `Coordinators.Coordinator.ReadMessage` | src/coordinator/main.c:379-451 | In place: one read of the event model |
| `Coordinators.Coordinator.WriteReply` | src/coordinator/main.c:453-481 | In place: one write of the event model |
| `Coordinators.Coordinator.Accept` | src/coordinator/main.c:500-517 | In place: the first free slot is taken, or none |
| `Coordinators.Coordinator.Schedule` | src/coordinator/main.c:543-573 | In place: one scheduling round, sending the assignment that was logged |
| `Coordinators.Coordinator.Turn` | src/coordinator/main.c:624-662 | In place: expire before reading, serve, then the deadline |
| `Coordinators.Coordinator.Run` | src/coordinator/main.c:591-688 | Over any event sequence, the object ends in the state of the event model's run |
| `Coordinators.RunCoordinator` | src/coordinator/main.c:575-688 | From storage to served events on the objects, on an existing log or a new one: a coordinator exists exactly if startup succeeded and the clock has not gone back; its log recovers what it published or one record further, and while it is in service no lease is orphaned |
| `ProtocolLoops.CheckJobs` | src/common/protocol.c:255-274 | The loop is the job list validator, and accepted lists have strictly increasing IDs |
| `ProtocolLoops.CheckWorkers` | src/common/protocol.c:276-295 | The loop is the worker list validator, and accepted lists have strictly increasing IDs |
| `ProtocolLoops.WriteRows` | src/common/protocol.c:538-565 | The rows are written into the buffer one after the other and nothing else is touched |
| `ProtocolLoops.ReadRows` | src/common/protocol.c:705-727 | The loop reads back every row |
| `Tasks.ParseNumber` | src/worker/task.c:9-24 | Accepts exactly the non-empty digit strings whose value is within the limit, and gives that value |
| `Tasks.IsOddPrime` | src/worker/task.c:81-85 | Trial division by odd numbers up to the square root decides primality |
| `Tasks.PrimeCount` | src/worker/task.c:77-88 | Counts exactly the primes up to the number |
| `Tasks.DivisionIsSquare` | src/worker/task.c:80-82 | Comparing a divisor with the quotient is comparing its square with the candidate |
| `Tasks.Fibonacci` | src/worker/task.c:90-98 | The n-th Fibonacci number, without 64-bit overflow up to the limit |

## Left out

- Sockets, `poll`, deadlines and signals (src/common/net.c): events that deliver bytes, drain output or end a connection. An event also carries the clock readings its handlers make.
- Ending the event loop on a clock failure, a listener error or a stop signal: the event sequence simply ends there. `close_client` and later handlers never run after it.
- Opening, locking and inspecting files and directories (src/coordinator/wal_writer.c:102-156): an exclusively held regular file is assumed, empty if it is to be initialized, and write, sync, read and truncate outcomes are modelled.
- Closing the log and the store (src/coordinator/wal_writer.c:204-225): releases descriptors only.
- Power loss: a sync that reports success is taken to have worked, and a failed or missing sync loses nothing that was written, as for a process crash. A failed truncation leaves the file as it was.
- Memory exhaustion and files of 2^63 bytes or more: allocation succeeds and file offsets do not overflow.
- Which system call failed and with which `errno`, error offsets and the replay report's byte counters: results carry the error class only.
- Buffers handed to the codecs: encoders return the bytes they would write and decoders take the bytes that are there; the capacity checks are modelled, and the list loops also write into an array (`ProtocolLoops`).
- Job and client structs are copied by value in C as well; a record is a value whose fields are assigned one at a time (`JobRecord`), and the client array holds such values. The input buffer of a client is the bytes received so far.
- Checks for missing arguments, enum names, logging, and the reasons logged when a client is closed.
- `qsort` is a sorting function on sequences; the order of equal keys does not matter because keys are distinct.
- Worker threads, cancellation, sleeping, the FNV hash task and result formatting (src/worker/main.c, src/worker/task.c).
- The command-line client (src/cli/main.c) and the benchmark, demo and fault-injection scripts.
- `Tasks.PrimeCount`: does not model cancellation, which only makes the loop return early without a count.
- `Coordinators.Coordinator.Run`: takes the event sequence as given; that a poll cycle visits the clients in slot order is not stated, because the theorems hold for every order.
