/** One durable step of the store against the log it writes. */
module Durability {
  import opened Base
  import opened JobModel
  import opened Messages
  import opened SchedulerModel
  import opened RegistryModel
  import opened WalFormat
  import opened WalCodec
  import opened WriterModel
  import opened HistoryModel
  import opened ReplayModel
  import opened Logging
  import opened StoreModel

  /** What clients can observe and what must survive: the jobs with their queue, the
      two ID allocators and the logical time. */
  datatype Published = Published(jobs: Scheduler, nextWorkerId: u32, time: i64)

  function PublishedBy(store: Store): Published {
    Published(store.jobs, store.workers.nextWorkerId, store.lastJobTime)
  }

  function PublishedIn(h: History): Published {
    Published(h.scheduler, h.nextWorkerId, h.timeBase)
  }

  predicate WorkersIssued(workers: Registry, h: History) {
    forall i :: 0 <= i < |workers.workers| && Used(workers.workers[i]) ==> workers.workers[i].id in h.issued
  }

  /** A store without a fault shows exactly what its log says. */
  predicate Mirrors(store: Store, h: History) {
    && HistoryOk(h)
    && PublishedBy(store) == PublishedIn(h)
    && RegistryOk(store.workers)
    && WorkersIssued(store.workers, h)
    && store.wal.state == WriterReady
    && store.wal.nextSequence == Succ64(h.lastSequence)
    && store.fault == NoFault
  }

  /** The store after a committed plan. */
  function Publish(store: Store, plan: Plan): Store
    requires plan.Commit?
  {
    var sequence := plan.record.sequence;
    store.(jobs := plan.jobs, workers := plan.workers, lastJobTime := plan.time,
           wal := Writer(WriterReady, Succ64(sequence), sequence))
  }

  /** A prepared transaction is replayable and its publication mirrors the new log;
      what is refused is never an internal failure. */
  predicate Sound(store: Store, h: History, plan: Plan) {
    match plan
    case Refuse(result, fault) =>
      result != StoreOk && result != Killed && fault != InternalFault && (result == Fatal <==> fault != NoFault)
    case Commit(record, jobs, workers, time) =>
      && ValidPayload(record)
      && record.sequence == store.wal.nextSequence
      && Apply(h, record).Ok?
      && Mirrors(Publish(store, plan), Apply(h, record).value)
  }

  lemma JobTimeAdvances(store: Store, raw: i64)
    ensures var time := JobTime(store, raw); time.Some? ==> store.lastJobTime <= time.value
  {}

  lemma CommitIsSound(store: Store, h: History, change: Change, kind: Kind)
    requires Mirrors(store, h) && kind == KindOf(change.job)
    requires Replayable(h, store.wal.nextSequence, change)
    ensures Sound(store, h, PlanCommit(store, change.next, change.job.id, kind))
    ensures PlanCommit(store, change.next, change.job.id, kind).Commit?
    ensures PlanCommit(store, change.next, change.job.id, kind).record
        == JobSnapshot(kind, store.wal.nextSequence, change.job)
  {
    hide ValidSnapshot, FindSlot, ApplySnapshot, HistoryOk, RegistryOk;
    var plan := PlanCommit(store, change.next, change.job.id, kind);
    assert change.job.id != 0 by { IdNonzero(change.job); }
    ApplyKeepsOk(h, plan.record);
  }

  lemma IdNonzero(job: Job)
    requires JobOk(job)
    ensures job.id != 0
  {}

  lemma RegisterIsSound(store: Store, h: History, fd: int, now: i64)
    requires Mirrors(store, h)
    ensures Sound(store, h, PlanRegister(store, fd, now))
  {
    hide SchedulerOk, WorkerSlot, IsAlive;
    var plan := PlanRegister(store, fd, now);
    if plan.Commit? {
      RegisterOk(store.workers, fd, now);
      ApplyKeepsOk(h, plan.record);
    }
  }

  lemma SubmitIsSound(store: Store, h: History, submission: Submission, now: i64)
    requires Mirrors(store, h)
    ensures Sound(store, h, PlanSubmit(store, submission, now))
  {
    hide Submit, PlanCommit, Replayable, HistoryOk, RegistryOk, ApplySnapshot, JobTime;
    JobTimeAdvances(store, now);
    var time := JobTime(store, now);
    if time.Some? {
      SubmitIsReplayable(h, submission, time.value, store.wal.nextSequence);
      var change := Submit(store.jobs, submission, time.value);
      if change.Ok? {
        CommitIsSound(store, h, change.value, JobCreated);
      }
    }
  }

  lemma AssignIsSound(store: Store, h: History, workerId: u32, now: i64)
    requires Mirrors(store, h)
    ensures Sound(store, h, PlanAssign(store, workerId, now))
  {
    hide Dispatch, PlanCommit, Replayable, HistoryOk, RegistryOk, ApplySnapshot, JobTime, ActiveSlot, WorkerSlot;
    JobTimeAdvances(store, now);
    var time := JobTime(store, now);
    if IsAlive(store.workers, workerId) && time.Some? {
      assert workerId in h.issued by {
        assert Used(store.workers.workers[WorkerSlot(store.workers.workers, workerId)]);
      }
      DispatchIsReplayable(h, workerId, time.value, store.wal.nextSequence);
      var change := Dispatch(store.jobs, workerId, time.value);
      if change.Ok? {
        CommitIsSound(store, h, change.value, JobAssigned);
      }
    }
  }

  lemma KindOfReport(job: Job)
    requires KindOf(job) != JobCreated && KindOf(job) != JobAssigned
    ensures ReportKind(job.state) == KindOf(job)
    ensures KindOf(job) == JobRequeued || KindOf(job) == JobFailed ==>
              (if job.state == Queued then JobRequeued else JobFailed) == KindOf(job)
  {}

  /** The record logged for an accepted report is that of the job it changed, although
      the store finds it by the worker and the scheduler by the job ID. */
  lemma ReportIsSound(store: Store, h: History, workerId: u32, report: Message, now: i64)
    requires Mirrors(store, h)
    ensures Sound(store, h, PlanReport(store, workerId, report, now))
    ensures var plan := PlanReport(store, workerId, report, now);
            plan.Commit? ==>
              && JobTime(store, now).Some?
              && var change := ApplyReport(store.jobs, workerId, report, JobTime(store, now).value);
              && change.Ok? && plan.jobs == change.value.next
              && plan.record == JobSnapshot(KindOf(change.value.job), store.wal.nextSequence, change.value.job)
  {
    hide ApplyReport, PlanCommit, Replayable, HistoryOk, RegistryOk, ApplySnapshot, JobTime, ActiveSlot, WorkerSlot,
         FindSlot;
    JobTimeAdvances(store, now);
    var time := JobTime(store, now);
    if time.Some? {
      var change := ApplyReport(store.jobs, workerId, report, time.value);
      ReportIsReplayable(h, workerId, report, time.value, store.wal.nextSequence);
      if change.Ok? {
        ReplayableSlot(h, store.wal.nextSequence, change.value);
        KindOfReport(change.value.job);
        CommitIsSound(store, h, change.value, KindOf(change.value.job));
        CommitPublishes(store, change.value);
      }
    }
  }

  lemma ReplayableSlot(h: History, sequence: u64, change: Change)
    requires Replayable(h, sequence, change)
    ensures var slot := FindSlot(change.next.jobs, change.job.id);
            slot < |change.next.jobs| && change.next.jobs[slot] == change.job
  {}

  lemma CommitPublishes(store: Store, change: Change)
    ensures var plan := PlanCommit(store, change.next, change.job.id, KindOf(change.job));
            plan.Commit? ==> plan.jobs == change.next && plan.workers == store.workers
  {}

  lemma LossIsSound(store: Store, h: History, workerId: u32, now: i64)
    requires Mirrors(store, h)
    ensures Sound(store, h, PlanLoss(store, workerId, now))
    ensures var plan := PlanLoss(store, workerId, now);
            ActiveSlot(store.jobs.jobs, workerId) < |store.jobs.jobs| && JobTime(store, now).Some? ==>
              var change := LoseWorker(store.jobs, workerId, JobTime(store, now).value);
              && plan.Commit? && change.Ok? && plan.jobs == change.value.next && plan.workers == store.workers
              && plan.record == JobSnapshot(KindOf(change.value.job), store.wal.nextSequence, change.value.job)
  {
    hide LoseWorker, PlanCommit, Replayable, HistoryOk, RegistryOk, ApplySnapshot, JobTime, ActiveSlot, FindSlot;
    JobTimeAdvances(store, now);
    var time := JobTime(store, now);
    if time.Some? && ActiveSlot(store.jobs.jobs, workerId) < |store.jobs.jobs| {
      LossIsReplayable(h, workerId, time.value, store.wal.nextSequence);
      var change := LoseWorker(store.jobs, workerId, time.value);
      ReplayableSlot(h, store.wal.nextSequence, change.value);
      KindOfReport(change.value.job);
      CommitIsSound(store, h, change.value, KindOf(change.value.job));
      CommitPublishes(store, change.value);
    }
  }

  /** Every operation of a store that mirrors its log prepares a sound transaction. */
  lemma PlanIsSound(store: Store, h: History, op: Operation)
    requires Mirrors(store, h)
    ensures Sound(store, h, PlanFor(store, op))
  {
    hide Sound, Mirrors, PlanRegister, PlanSubmit, PlanAssign, PlanReport, PlanLoss;
    match op
    case RegisterWorker(fd, now) => RegisterIsSound(store, h, fd, now);
    case SubmitJob(submission, now) => SubmitIsSound(store, h, submission, now);
    case AssignJob(workerId, now) => AssignIsSound(store, h, workerId, now);
    case ReportJob(workerId, report, now) => ReportIsSound(store, h, workerId, report, now);
    case LoseWorkerOf(workerId, now) => LossIsSound(store, h, workerId, now);
  }

  // ---------- files ----------

  /** The file is complete and replays to `h`. */
  predicate Holds(file: bytes, h: History) {
    Replay(file) == Ok(Replayed(h, 0))
  }

  /** `file` is `base` and the first `k` bytes of one more legal record. */
  predicate Extends(base: bytes, h: History, record: Record, k: nat, file: bytes) {
    && h.lastSequence < U64_MAX && record.sequence == h.lastSequence + 1
    && Apply(h, record).Ok?
    && EncodeRecord(record).Ok? && k <= |EncodeRecord(record).value|
    && file == base + EncodeRecord(record).value[..k]
  }

  /** `file` is `base` and possibly part or all of this record. */
  ghost predicate Partly(base: bytes, h: History, record: Record, file: bytes) {
    file == base || exists k :: Extends(base, h, record, k, file)
  }

  /** The file holds what is published, or that and (part of) one record in flight. */
  ghost predicate InFlight(base: bytes, h: History, file: bytes) {
    exists record :: Partly(base, h, record, file)
  }

  ghost predicate Recovers(file: bytes, published: Published) {
    exists base, h :: Holds(base, h) && HistoryOk(h) && PublishedIn(h) == published && InFlight(base, h, file)
  }

  lemma ReplayExtended(base: bytes, h: History, more: bytes)
    requires Holds(base, h)
    ensures Replay(base + more) == ReplayLog(h, more)
  {
    hide ReplayLog, FileHeader, DecodeFileHeader;
    FileHeaderCanonical(base);
    var log := base[FILE_HEADER_SIZE..];
    FileHeaderDecodes(log + more);
    assert base + more == FileHeader() + (log + more);
    ReplayAppend(EmptyHistory(), log, more);
    assert (base + more)[FILE_HEADER_SIZE..] == log + more;
  }

  /** A torn record is dropped, a complete one is replayed. */
  lemma ReplayInFlight(base: bytes, h: History, record: Record, k: nat, file: bytes)
    requires Holds(base, h) && Extends(base, h, record, k, file)
    ensures var torn := k < |EncodeRecord(record).value|;
            Replay(file) == Ok(if torn then Replayed(h, k) else Replayed(Apply(h, record).value, 0))
  {
    hide Replay, ReplayLog, EncodeRecord, Apply;
    var wire := EncodeRecord(record).value;
    ReplayExtended(base, h, wire[..k]);
    ReplayRecord(h, record, wire);
    assert k == |wire| ==> wire[..k] == wire;
  }

  /** What a restart finds: the published state, or that state advanced by exactly the
      one record that was in flight. */
  lemma RecoveryIsExact(file: bytes, published: Published)
    requires Recovers(file, published)
    ensures Replay(file).Ok?
    ensures var found := Replay(file).value.history;
            && HistoryOk(found)
            && (PublishedIn(found) == published
                || exists h, record :: HistoryOk(h) && PublishedIn(h) == published && Apply(h, record) == Ok(found))
  {
    hide Replay, EncodeRecord, Apply, HistoryOk;
    var base, h :| Holds(base, h) && HistoryOk(h) && PublishedIn(h) == published && InFlight(base, h, file);
    var record :| Partly(base, h, record, file);
    if file != base {
      var k: nat :| Extends(base, h, record, k, file);
      ReplayInFlight(base, h, record, k, file);
      EncodedIsValid(record);
      ApplyKeepsOk(h, record);
      assert Apply(h, record) == Ok(Apply(h, record).value);
    }
  }

  lemma HeldRecovers(file: bytes, h: History)
    requires Holds(file, h) && HistoryOk(h)
    ensures Recovers(file, PublishedIn(h))
  {
    assert Partly(file, h, WorkerAllocated(0, 0), file);
    assert InFlight(file, h, file);
  }

  // ---------- one transaction ----------

  lemma CarryCommits(store: Store, h: History, disk: Disk, plan: Plan)
    requires Mirrors(store, h) && plan.Commit? && Sound(store, h, plan) && Holds(disk.file, h)
    ensures var step := Carry(store, disk, plan);
            && step.result in {StoreOk, Fatal, Killed}
            && (step.result == StoreOk ==>
                  && step.store == Publish(store, plan) && Holds(step.disk.file, Apply(h, plan.record).value)
                  && h.lastSequence < U64_MAX
                  && EncodeRecord(plan.record).Ok? && step.disk.file == disk.file + EncodeRecord(plan.record).value)
            && (step.result != StoreOk ==>
                  PublishedBy(step.store) == PublishedBy(store) && step.store.workers == store.workers
                  && Partly(disk.file, h, plan.record, step.disk.file))
            && (step.result == Fatal ==> step.store.fault == WalFault)
            && (step.result == Killed ==> step.store.fault == store.fault)
  {
    hide Mirrors, Holds, EncodeRecord, Apply, ValidPayload, WriteAll, Sync, Replay;
    var record := plan.record;
    MirrorsWriter(store, h);
    if store.wal.nextSequence != 0 {
      ValidEncodes(record);
      var wire := EncodeRecord(record).value;
      AppendOutcome(store.wal, disk, record, wire);
      var out := Append(store.wal, disk, record);
      var k :| 0 <= k <= |wire| && out.disk.file == disk.file + wire[..k] && (out.result == WriteOk ==> k == |wire|);
      assert Extends(disk.file, h, record, k, out.disk.file);
      ReplayInFlight(disk.file, h, record, k, out.disk.file);
      assert wire[..|wire|] == wire;
      assert k == |wire| ==> Holds(out.disk.file, Apply(h, record).value) by { HoldsMeans(out.disk.file); }
    } else {
      LatchedWriterIsSilent(store.wal, disk, record);
    }
  }

  lemma HoldsMeans(file: bytes)
    ensures forall h :: Holds(file, h) <==> Replay(file) == Ok(Replayed(h, 0))
  {}

  lemma MirrorsWriter(store: Store, h: History)
    requires Mirrors(store, h)
    ensures store.wal.state == WriterReady && store.wal.nextSequence == Succ64(h.lastSequence)
  {}

  lemma ValidEncodes(record: Record)
    requires ValidPayload(record) && record.sequence != 0
    ensures EncodeRecord(record).Ok?
  {}
}
