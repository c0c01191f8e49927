/** The durable store that src/coordinator/coordinator_store.c updates in place:
    a published job store, a scratch copy on which every transaction is prepared, the
    worker registry and the log writer. */
module CoordinatorStores {
  import opened Base
  import opened JobModel
  import opened Messages
  import opened SchedulerModel
  import opened RegistryModel
  import opened WalFormat
  import opened WriterModel
  import opened HistoryModel
  import opened ReplayModel
  import opened StoreModel
  import opened StartupModel
  import Settlement
  import Recovery
  import opened JobStores
  import opened WorkerRegistries
  import opened LogWriters
  import opened LogReaders

  class CoordinatorStore {
    const jobs: JobStore
    const scratch: JobStore
    const workers: WorkerRegistry
    const wal: LogWriter
    var fault: Fault
    var isOpen: bool
    var timeBase: i64
    var sessionStart: i64
    var lastJobTime: i64
    var interrupted: nat

    ghost function Repr(): set<object> {
      {this, jobs, jobs.jobs, jobs.pending, jobs.pending.ids,
       scratch, scratch.jobs, scratch.pending, scratch.pending.ids,
       workers, workers.workers, wal, wal.storage}
    }

    ghost predicate Valid()
      reads this, jobs, jobs.jobs, jobs.pending, jobs.pending.ids,
            scratch, scratch.jobs, scratch.pending, scratch.pending.ids, workers, workers.workers, wal
    {
      && jobs.Valid() && scratch.Valid() && workers.Valid()
      && jobs.Apart(scratch)
    }

    /** What is published; the scratch copy is not part of it. */
    function Value(): (s: Store)
      requires Valid()
      ensures s.fault == fault && |s.workers.workers| == MAX_WORKERS
      reads this, jobs, jobs.jobs, jobs.pending, jobs.pending.ids,
            scratch, scratch.jobs, scratch.pending, scratch.pending.ids, workers, workers.workers, wal
    {
      Store(jobs.Value(), workers.Value(), wal.Value(), fault, isOpen, timeBase, sessionStart, lastJobTime, interrupted)
    }

    ghost function Disk(): WriterModel.Disk
      reads wal.storage
    {
      wal.storage.Contents()
    }

    /** `faultline_store_init`, on a file that has been opened and locked. */
    constructor (storage: Storage)
      ensures Valid() && fresh(Repr() - {storage}) && wal.storage == storage
      ensures Value() == Store(Initial(), EmptyRegistry(1), Writer(WriterRecovering, 0, 0), NoFault, false, 0, 0, 0, 0)
    {
      jobs := new JobStore();
      scratch := new JobStore();
      workers := new WorkerRegistry();
      wal := new LogWriter(storage);
      fault, isOpen, timeBase, sessionStart, lastJobTime, interrupted := NoFault, false, 0, 0, 0, 0;
    }

    /** `job_time`. */
    method JobTime(raw: i64) returns (time: Option<i64>)
      requires Valid() && fault == NoFault
      modifies this
      ensures Valid() && time == StoreModel.JobTime(old(Value()), raw)
      ensures Value() == if time.None? then old(Value()).(fault := ClockFault) else old(Value())
      ensures scratch.Value() == old(scratch.Value())
    {
      hide JobStore.Valid, JobStore.Value, WorkerRegistry.Valid, WorkerRegistry.Value;
      if raw < sessionStart || raw < 0 || raw - sessionStart > I64_MAX - timeBase {
        fault := ClockFault;
        return None;
      }
      var t := timeBase + (raw - sessionStart);
      if t < lastJobTime {
        fault := ClockFault;
        return None;
      }
      time := Some(t);
    }

    /** `append`: a write that fails latches the store. */
    method Append(record: Record) returns (result: StoreResult)
      requires Valid() && fault == NoFault
      modifies this, wal.Repr()
      ensures Valid()
      ensures var out := WriterModel.Append(old(wal.Value()), old(Disk()), record);
              && Disk() == out.disk
              && result == (if out.result == WriteOk then StoreOk
                            else if out.result == WriteKilled then Killed else Fatal)
              && Value() == old(Value()).(wal := out.writer, fault := if result == Fatal then WalFault else NoFault)
      ensures scratch.Value() == old(scratch.Value())
    {
      hide JobStore.Valid, JobStore.Value, WorkerRegistry.Valid, WorkerRegistry.Value, WriterModel.Append;
      var written := wal.Append(record);
      if written == WriteOk {
        return StoreOk;
      }
      if written == WriteKilled {
        return Killed;
      }
      fault := WalFault;
      result := Fatal;
    }

    /** `store->jobs = store->scratch`. */
    method Publish(time: i64)
      requires Valid()
      modifies this, jobs.Repr()
      ensures Valid() && Value() == old(Value()).(jobs := old(scratch.Value()), lastJobTime := time)
    {
      hide JobStore.Valid, JobStore.Value, WorkerRegistry.Valid, WorkerRegistry.Value;
      jobs.CopyFrom(scratch);
      lastJobTime := time;
    }

    /** `store->scratch = store->jobs`. */
    method BeginTransaction()
      requires Valid()
      modifies scratch.Repr()
      ensures Valid() && Value() == old(Value()) && scratch.Value() == jobs.Value()
    {
      hide JobStore.Valid, JobStore.Value, WorkerRegistry.Valid, WorkerRegistry.Value;
      scratch.CopyFrom(jobs);
    }

    // ---------- preparing on the scratch copy; nothing published changes ----------

    method PrepareSubmit(submission: Submission, time: i64) returns (error: Option<SchedulerError>, id: u64)
      requires Valid()
      modifies scratch.Repr()
      ensures Valid() && Value() == old(Value())
      ensures (error, scratch.Value())
           == Publication(old(Value()).jobs, SchedulerModel.Submit(old(Value()).jobs, submission, time))
      ensures error == None ==>
                id == old(Value()).jobs.nextJobId
                    == SchedulerModel.Submit(old(Value()).jobs, submission, time).value.job.id
    {
      hide JobStore.Valid, JobStore.Value, WorkerRegistry.Valid, WorkerRegistry.Value, SchedulerModel.Submit;
      BeginTransaction();
      error, id := scratch.Submit(submission, time);
    }

    method PrepareDispatch(workerId: u32, time: i64)
        returns (error: Option<SchedulerError>, assignment: Option<Message>)
      requires Valid()
      modifies scratch.Repr()
      ensures Valid() && Value() == old(Value())
      ensures (error, scratch.Value())
           == Publication(old(Value()).jobs, SchedulerModel.Dispatch(old(Value()).jobs, workerId, time))
      ensures error == None ==>
                assignment == Some(Assignment(SchedulerModel.Dispatch(old(Value()).jobs, workerId, time).value.job))
    {
      hide JobStore.Valid, JobStore.Value, WorkerRegistry.Valid, WorkerRegistry.Value, SchedulerModel.Dispatch;
      BeginTransaction();
      error, assignment := scratch.Dispatch(workerId, time);
    }

    method PrepareReport(workerId: u32, report: Message, time: i64) returns (error: Option<SchedulerError>)
      requires Valid()
      modifies scratch.Repr()
      ensures Valid() && Value() == old(Value())
      ensures (error, scratch.Value())
           == Publication(old(Value()).jobs, ApplyReport(old(Value()).jobs, workerId, report, time))
    {
      hide JobStore.Valid, JobStore.Value, WorkerRegistry.Valid, WorkerRegistry.Value, ApplyReport;
      BeginTransaction();
      error := scratch.Report(workerId, report, time);
    }

    method PrepareLoss(workerId: u32, time: i64) returns (error: Option<SchedulerError>)
      requires Valid()
      modifies scratch.Repr()
      ensures Valid() && Value() == old(Value())
      ensures (error, scratch.Value()) == Publication(old(Value()).jobs, LoseWorker(old(Value()).jobs, workerId, time))
    {
      hide JobStore.Valid, JobStore.Value, WorkerRegistry.Valid, WorkerRegistry.Value, LoseWorker;
      BeginTransaction();
      error := scratch.WorkerLost(workerId, time);
    }

    // ---------- committing ----------

    /** Log the prepared record, then publish the prepared store. */
    method LogAndPublish(kind: Kind, job: Job) returns (result: StoreResult)
      requires Valid() && fault == NoFault
      modifies Repr()
      ensures Valid()
      ensures Step(result, Value(), Disk())
           == Carry(old(Value()), old(Disk()),
                    Commit(JobSnapshot(kind, old(wal.nextSequence), job), old(scratch.Value()), old(workers.Value()),
                        job.updatedAt))
    {
      hide JobStore.Valid, JobStore.Value, WorkerRegistry.Valid, WorkerRegistry.Value, WriterModel.Append;
      result := Append(JobSnapshot(kind, wal.nextSequence, job));
      if result == StoreOk {
        Publish(job.updatedAt);
      }
    }

    /** `commit_job`. */
    method CommitJob(id: u64, kind: Kind) returns (result: StoreResult)
      requires Valid() && fault == NoFault
      modifies Repr()
      ensures Valid()
      ensures Step(result, Value(), Disk())
           == Carry(old(Value()), old(Disk()), PlanCommit(old(Value()), old(scratch.Value()), id, kind))
    {
      hide JobStore.Valid, JobStore.Value, WorkerRegistry.Valid, WorkerRegistry.Value, WriterModel.Append, FindSlot;
      var slot := scratch.Locate(id);
      if id == 0 || slot == scratch.count {
        fault := InternalFault;
        return Fatal;
      }
      var job := scratch.Get(slot);
      result := LogAndPublish(kind, job);
    }

    /** The end of `faultline_store_report` and of `commit_worker_loss`: the record type
        follows from the state the prepared job is in. */
    method CommitOutcome(id: u64, lost: bool) returns (result: StoreResult)
      requires Valid() && fault == NoFault
      modifies Repr()
      ensures Valid()
      ensures Step(result, Value(), Disk()) == OutcomeAt(old(Value()), old(Disk()), old(scratch.Value()), id, lost)
    {
      hide JobStore.Valid, JobStore.Value, WorkerRegistry.Valid, WorkerRegistry.Value, FindSlot, Carry, PlanCommit;
      var slot := scratch.Locate(id);
      if slot == scratch.count {
        fault := InternalFault;
        return Fatal;
      }
      var candidate := scratch.Get(slot);
      result := CommitJob(id, OutcomeKind(candidate.state, lost));
    }

    /** The end of `faultline_store_register`: the ID is logged, then the registry that
        issued it is published. */
    method PublishWorkers(candidate: WorkerRegistry, id: u32) returns (result: StoreResult)
      requires Valid() && fault == NoFault && candidate.Valid() && candidate.Repr() !! Repr()
      modifies Repr()
      ensures Valid()
      ensures Step(result, Value(), Disk())
           == Carry(old(Value()), old(Disk()),
                    Commit(WorkerAllocated(old(wal.nextSequence), id), old(Value()).jobs, old(candidate.Value()),
                        old(lastJobTime)))
    {
      hide JobStore.Valid, JobStore.Value, WorkerRegistry.Valid, WorkerRegistry.Value, WriterModel.Append;
      result := Append(WorkerAllocated(wal.nextSequence, id));
      if result == StoreOk {
        workers.CopyFrom(candidate);
      }
    }

    /** `faultline_store_register`: the candidate registry is published only after its
        worker ID is in the log. */
    method Register(fd: int, now: i64) returns (result: StoreResult, id: u32)
      requires Valid()
      modifies Repr()
      ensures Valid()
      ensures Step(result, Value(), Disk()) == Execute(old(Value()), old(Disk()), RegisterWorker(fd, now))
      ensures result == StoreOk ==> id == old(Value()).workers.nextWorkerId
    {
      hide JobStore.Valid, JobStore.Value, WorkerRegistry.Valid, WorkerRegistry.Value,
           RegistryModel.Register, Execute, Carry;
      RegisterStep(Value(), Disk(), fd, now);
      id := 0;
      if !isOpen || fault != NoFault {
        return Fatal, id;
      }
      if now < 0 {
        fault := ClockFault;
        return Fatal, id;
      }
      var candidate := new WorkerRegistry.Copy(workers);
      var error, issued := candidate.Register(fd, now);
      if error.Some? {
        return Rejected, id;
      }
      id := issued;
      result := PublishWorkers(candidate, issued);
    }

    method Submit(submission: Submission, now: i64) returns (result: StoreResult, id: u64)
      requires Valid()
      modifies Repr()
      ensures Valid()
      ensures Step(result, Value(), Disk()) == Execute(old(Value()), old(Disk()), SubmitJob(submission, now))
      ensures result == StoreOk ==> id == old(Value()).jobs.nextJobId
    {
      hide JobStore.Valid, JobStore.Value, WorkerRegistry.Valid, WorkerRegistry.Value,
           StoreModel.JobTime, Execute, SubmitAt;
      SubmitStep(Value(), Disk(), submission, now);
      id := 0;
      if !isOpen || fault != NoFault {
        return Fatal, id;
      }
      var time := JobTime(now);
      if time.None? {
        return Fatal, id;
      }
      result, id := TransactSubmit(submission, time.value);
    }

    /** `faultline_store_submit` once the time is known. */
    method TransactSubmit(submission: Submission, time: i64) returns (result: StoreResult, id: u64)
      requires Valid() && fault == NoFault
      modifies Repr()
      ensures Valid()
      ensures Step(result, Value(), Disk()) == SubmitAt(old(Value()), old(Disk()), submission, time)
      ensures result == StoreOk ==> id == old(Value()).jobs.nextJobId
    {
      hide JobStore.Valid, JobStore.Value, WorkerRegistry.Valid, WorkerRegistry.Value,
           SchedulerModel.Submit, Carry, PlanCommit;
      var error;
      error, id := PrepareSubmit(submission, time);
      if error == Some(SchedulerError.QueueError) {
        fault := InternalFault;
        return Fatal, id;
      }
      if error.Some? {
        return Rejected, id;
      }
      result := CommitJob(id, JobCreated);
    }

    method Assign(workerId: u32, now: i64) returns (result: StoreResult, assignment: Option<Message>)
      requires Valid()
      modifies Repr()
      ensures Valid()
      ensures Step(result, Value(), Disk()) == Execute(old(Value()), old(Disk()), AssignJob(workerId, now))
      ensures result == StoreOk ==> Dispatched(old(Value()), workerId, now, assignment)
    {
      hide JobStore.Valid, JobStore.Value, WorkerRegistry.Valid, WorkerRegistry.Value,
           StoreModel.JobTime, Execute, AssignAt, IsAlive;
      AssignStep(Value(), Disk(), workerId, now);
      assignment := None;
      if !isOpen || fault != NoFault {
        return Fatal, None;
      }
      var alive := workers.Alive(workerId);
      if !alive {
        return Rejected, None;
      }
      var time := JobTime(now);
      if time.None? {
        return Fatal, None;
      }
      result, assignment := TransactAssign(workerId, time.value);
    }

    /** `faultline_store_assign` once the time is known. */
    method TransactAssign(workerId: u32, time: i64) returns (result: StoreResult, assignment: Option<Message>)
      requires Valid() && fault == NoFault
      modifies Repr()
      ensures Valid()
      ensures Step(result, Value(), Disk()) == AssignAt(old(Value()), old(Disk()), workerId, time)
      ensures result == StoreOk ==>
                var change := SchedulerModel.Dispatch(old(Value()).jobs, workerId, time);
                change.Ok? && assignment == Some(Assignment(change.value.job))
    {
      hide JobStore.Valid, JobStore.Value, WorkerRegistry.Valid, WorkerRegistry.Value,
           SchedulerModel.Dispatch, Carry, PlanCommit;
      assignment := None;
      var error;
      error, assignment := PrepareDispatch(workerId, time);
      if error == Some(Empty) {
        return NothingToDo, None;
      }
      if error == Some(WorkerBusy) {
        return Rejected, None;
      }
      if error.Some? {
        fault := InternalFault;
        return Fatal, None;
      }
      result := CommitJob(assignment.value.identity.jobId, JobAssigned);
    }

    method Report(workerId: u32, report: Message, now: i64) returns (result: StoreResult)
      requires Valid()
      modifies Repr()
      ensures Valid()
      ensures Step(result, Value(), Disk()) == Execute(old(Value()), old(Disk()), ReportJob(workerId, report, now))
    {
      hide JobStore.Valid, JobStore.Value, WorkerRegistry.Valid, WorkerRegistry.Value,
           StoreModel.JobTime, Execute, ReportAt, IsAlive, ActiveSlot;
      ReportStep(Value(), Disk(), workerId, report, now);
      if !isOpen || fault != NoFault {
        return Fatal;
      }
      var alive := workers.Alive(workerId);
      var held := jobs.Active(workerId);
      if !alive || held == jobs.count {
        return Rejected;
      }
      var active := jobs.Get(held);
      var time := JobTime(now);
      if time.None? {
        return Fatal;
      }
      result := TransactReport(workerId, report, active.id, time.value);
    }

    /** `faultline_store_report` once the worker's job and the time are known. */
    method TransactReport(workerId: u32, report: Message, id: u64, time: i64) returns (result: StoreResult)
      requires Valid() && fault == NoFault
      modifies Repr()
      ensures Valid()
      ensures Step(result, Value(), Disk()) == ReportAt(old(Value()), old(Disk()), workerId, report, id, time)
    {
      hide JobStore.Valid, JobStore.Value, WorkerRegistry.Valid, WorkerRegistry.Value,
           ApplyReport, OutcomeAt;
      var error := PrepareReport(workerId, report, time);
      if error == Some(SchedulerError.QueueError) {
        fault := InternalFault;
        return Fatal;
      }
      if error.Some? {
        return Rejected;
      }
      result := CommitOutcome(id, false);
    }

    /** `commit_worker_loss`. */
    method CommitLoss(workerId: u32, now: i64) returns (result: StoreResult)
      requires Valid() && fault == NoFault
      modifies Repr()
      ensures Valid()
      ensures Step(result, Value(), Disk()) == Carry(old(Value()), old(Disk()), PlanLoss(old(Value()), workerId, now))
    {
      hide JobStore.Valid, JobStore.Value, WorkerRegistry.Valid, WorkerRegistry.Value,
           StoreModel.JobTime, PlanLoss, Carry, LossAt, ActiveSlot;
      LossStep(Value(), Disk(), workerId, now);
      var held := jobs.Active(workerId);
      if held == jobs.count {
        return NothingToDo;
      }
      var active := jobs.Get(held);
      var time := JobTime(now);
      if time.None? {
        return Fatal;
      }
      result := TransactLoss(workerId, active.id, time.value);
    }

    /** `commit_worker_loss` once the job and the time are known. */
    method TransactLoss(workerId: u32, id: u64, time: i64) returns (result: StoreResult)
      requires Valid() && fault == NoFault
      modifies Repr()
      ensures Valid()
      ensures Step(result, Value(), Disk()) == LossAt(old(Value()), old(Disk()), workerId, id, time)
    {
      hide JobStore.Valid, JobStore.Value, WorkerRegistry.Valid, WorkerRegistry.Value,
           LoseWorker, OutcomeAt;
      var error := PrepareLoss(workerId, time);
      if error.Some? {
        fault := InternalFault;
        return Fatal;
      }
      result := CommitOutcome(id, true);
    }

    method WorkerLost(workerId: u32, now: i64) returns (result: StoreResult)
      requires Valid()
      modifies Repr()
      ensures Valid()
      ensures Step(result, Value(), Disk()) == Execute(old(Value()), old(Disk()), LoseWorkerOf(workerId, now))
    {
      hide JobStore.Valid, JobStore.Value, WorkerRegistry.Valid, WorkerRegistry.Value, PlanLoss, Carry;
      if !isOpen || fault != NoFault {
        return Fatal;
      }
      result := CommitLoss(workerId, now);
    }

    /** One interrupted attempt: lost, logged, published and counted. */
    method RecoverOne(workerId: u32, now: i64) returns (result: StoreResult)
      requires Valid() && fault == NoFault
      modifies Repr()
      ensures Valid() && (result == StoreOk ==> fault == NoFault)
      ensures var step := Carry(old(Value()), old(Disk()), PlanLoss(old(Value()), workerId, now));
              && Disk() == step.disk
              && result == (if step.result == StoreOk || step.result == Killed then step.result else Fatal)
              && Value() == (if result == StoreOk then step.store.(interrupted := step.store.interrupted + 1)
                             else step.store)
    {
      hide JobStore.Valid, JobStore.Value, WorkerRegistry.Valid, WorkerRegistry.Value, Carry, PlanLoss;
      LossKeepsFault(Value(), Disk(), workerId, now);
      var lost := CommitLoss(workerId, now);
      if lost != StoreOk {
        return if lost == Killed then Killed else Fatal;
      }
      interrupted := interrupted + 1;
      result := StoreOk;
    }

    /** `recover_interrupted_jobs`: each interrupted attempt is logged as lost before
        the next one is looked at. */
    method RecoverInterrupted(now: i64) returns (result: StoreResult)
      requires Valid() && fault == NoFault
      modifies Repr()
      ensures Valid()
      ensures Step(result, Value(), Disk()) == Reconcile(old(Value()), old(Disk()), 0, now)
    {
      hide JobStore.Valid, JobStore.Value, WorkerRegistry.Valid, WorkerRegistry.Value, Carry, PlanLoss;
      var i: nat := 0;
      while i < jobs.count
        invariant Valid() && fault == NoFault
        invariant Reconcile(Value(), Disk(), i, now) == Reconcile(old(Value()), old(Disk()), 0, now)
        decreases STORE_CAPACITY - i
      {
        var job := jobs.Get(i);
        if job.state == Assigned || job.state == Running {
          result := RecoverOne(job.workerId, now);
          if result != StoreOk {
            return;
          }
        }
        i := i + 1;
      }
      result := StoreOk;
    }

    /** The store as `faultline_store_init` leaves it, with the file at its start. */
    ghost predicate Untouched()
      requires Valid()
      reads this, jobs, jobs.jobs, jobs.pending, jobs.pending.ids,
            scratch, scratch.jobs, scratch.pending, scratch.pending.ids, workers, workers.workers, wal, wal.storage
    {
      && Value() == Store(Initial(), EmptyRegistry(1), Writer(WriterRecovering, 0, 0), NoFault, false, 0, 0, 0, 0)
      && wal.storage.position == 0
    }

    /** Replay and repair into the published jobs and workers, or no change to them. */
    method LoadStore() returns (status: IoStatus, base: i64, ghost read: IoStatus, ghost rest: seq<Io>)
      requires Valid() && wal.storage.position == 0
      modifies Repr()
      ensures Valid() && Later(old(Disk()).script, rest)
      ensures (status, Disk()) == Opened(old(Disk()).file, rest, read)
      ensures status == IoOk ==>
                var h := Replay(old(Disk()).file).value.history;
                && base == h.timeBase
                && Value() == old(Value()).(jobs := h.scheduler, workers := EmptyRegistry(h.nextWorkerId),
                                            wal := Writer(WriterReady, Succ64(h.lastSequence), h.lastSequence))
      ensures status != IoOk ==> Value() == old(Value()).(wal := Value().wal)
    {
      hide JobStore.Valid, JobStore.Value, WorkerRegistry.Valid, WorkerRegistry.Value, Opened, Replay, Later,
           EmptyRegistry;
      status, base, read, rest := OpenLog(wal, jobs, workers);
    }

    /** `faultline_store_open_with_io` on an existing log.  `read` and `rest` say how
        reading the file went; nothing is published unless replay and repair succeed. */
    method Open(now: i64) returns (result: StoreResult, ghost read: IoStatus, ghost rest: seq<Io>)
      requires Valid() && Untouched()
      modifies Repr()
      ensures Valid() && Later(old(Disk()).script, rest)
      ensures Matches(OpenExisting(WriterModel.Disk(old(Disk()).file, rest), now, read), result, Value(), Disk())
    {
      hide JobStore.Valid, JobStore.Value, WorkerRegistry.Valid, WorkerRegistry.Value, Reconcile, Repair, Replay, Later;
      LaterNext(Disk().script);
      if now < 0 {
        fault := ClockFault;
        return Fatal, IoOk, Disk().script;
      }
      var status, base;
      status, base, read, rest := LoadStore();
      if status != IoOk {
        if status == IoError {
          fault := OpenFault;
        }
        return if status == IoKilled then Killed else Fatal, read, rest;
      }
      FailedStartLatches(WriterModel.Disk(old(Disk()).file, rest), now, read);
      result := BeginSession(base, now);
    }

    /** The end of `faultline_store_open_with_io`: a ready log alone does not open the
        store, every interrupted attempt must have been settled first. */
    method BeginSession(base: i64, now: i64) returns (result: StoreResult)
      requires Valid() && fault == NoFault
      modifies Repr()
      ensures Valid()
      ensures var start := old(Value()).(timeBase := base, sessionStart := now, lastJobTime := base);
              var step := Reconcile(start, old(Disk()), 0, now);
              && result == step.result && Disk() == step.disk
              && Value() == if result == StoreOk then step.store.(isOpen := true) else step.store
    {
      hide JobStore.Valid, JobStore.Value, WorkerRegistry.Valid, WorkerRegistry.Value, Reconcile;
      timeBase := base;
      sessionStart := now;
      lastJobTime := timeBase;
      result := RecoverInterrupted(now);
      if result == StoreOk {
        isOpen := true;
      }
    }

    /** `faultline_store_open_with_io` with a new, empty file. */
    method OpenNew(now: i64) returns (result: StoreResult)
      requires Valid() && Untouched() && Disk().file == []
      modifies Repr()
      ensures Valid()
      ensures Matches(CreateNew(old(Disk()).script, now), result, Value(), Disk())
    {
      hide JobStore.Valid, JobStore.Value, WorkerRegistry.Valid, WorkerRegistry.Value, EmptyRegistry,
           FileHeader, WriterModel.WriteAll, WriterModel.Sync;
      if now < 0 {
        fault := ClockFault;
        return Fatal;
      }
      var status := wal.Create();
      if status != IoOk {
        if status == IoError {
          fault := OpenFault;
        }
        return if status == IoKilled then Killed else Fatal;
      }
      result := BeginSession(timeBase, now);
    }

    // ---------- what the event loop reads and changes without logging ----------

    /** Does this worker hold an active job? */
    method Holds(workerId: u32) returns (holds: bool)
      requires Valid()
      ensures holds == (ActiveSlot(Value().jobs.jobs, workerId) < |Value().jobs.jobs|)
    {
      var slot := jobs.Active(workerId);
      holds := slot < jobs.count;
    }

    method HasPending() returns (waiting: bool)
      requires Valid()
      ensures waiting == (Value().jobs.pending != [])
    {
      waiting := jobs.pending.count != 0;
    }

    /** `faultline_scheduler_find`. */
    method FindJob(id: u64) returns (job: Option<Job>)
      requires Valid()
      ensures var slot := FindSlot(Value().jobs.jobs, id);
              job == if id == 0 || slot == |Value().jobs.jobs| then None else Some(Value().jobs.jobs[slot])
    {
      var slot := jobs.Locate(id);
      if id == 0 || slot == jobs.count {
        return None;
      }
      var found := jobs.Get(slot);
      job := Some(found);
    }

    /** `faultline_worker_find`. */
    method FindWorker(id: u32) returns (worker: Option<Worker>)
      requires Valid()
      ensures var slot := WorkerSlot(Value().workers.workers, id);
              worker == if id == 0 || slot == |Value().workers.workers| then None
                  else Some(Value().workers.workers[slot])
    {
      var slot := workers.Locate(id);
      worker := if id == 0 || slot == MAX_WORKERS then None else Some(workers.workers[slot]);
    }

    method Heartbeat(id: u32, fd: int, now: i64) returns (ok: bool)
      requires Valid()
      modifies workers.Repr()
      ensures Valid()
      ensures var beat := RecordHeartbeat(old(Value()).workers, id, fd, now);
              && ok == beat.Ok?
              && Value() == old(Value()).(workers := if ok then beat.value else old(Value()).workers)
    {
      hide JobStore.Valid, JobStore.Value, WorkerRegistry.Value, RecordHeartbeat;
      var error := workers.Heartbeat(id, fd, now);
      ok := error.None?;
    }

    method Bury(id: u32, fd: int)
      requires Valid()
      modifies workers.Repr()
      ensures Valid()
      ensures var dead := RegistryModel.MarkDead(old(Value()).workers, id, fd);
              Value() == old(Value()).(workers := if dead.Ok? then dead.value else old(Value()).workers)
    {
      hide JobStore.Valid, JobStore.Value, WorkerRegistry.Value, RegistryModel.MarkDead;
      var error := workers.MarkDead(id, fd);
    }
  }

  /** A startup reports and leaves what the model says; without a recovered store,
      nothing has been published; and every failure is latched. */
  ghost predicate Matches(opening: Opening, result: StoreResult, store: Store, disk: WriterModel.Disk) {
    && result == opening.result && disk == opening.disk
    && (opening.store.Some? ==> store == opening.store.value)
    && (opening.store.None? ==> store.jobs == Initial() && !store.isOpen)
    && (result == Fatal ==> store.fault != NoFault)
  }

  /** A startup that fails after replay has latched the failure. */
  lemma FailedStartLatches(disk: WriterModel.Disk, now: i64, read: IoStatus)
    ensures var open := OpenExisting(disk, now, read);
            open.result == Fatal && open.store.Some? ==> open.store.value.fault != NoFault
  {
    hide Replay, OpenExisting, Settlement.Settle, HistoryOk;
    if OpenExisting(disk, now, read).store.Some? {
      assert Replay(disk.file).Ok? by { PublishedMeansReplayed(disk, now, read); }
      Recovery.OpenOutcome(disk, now, read);
    }
  }

  lemma PublishedMeansReplayed(disk: WriterModel.Disk, now: i64, read: IoStatus)
    requires OpenExisting(disk, now, read).store.Some?
    ensures Replay(disk.file).Ok?
  {
    hide Replay, Repair, Reconcile;
  }

  lemma LossKeepsFault(store: Store, disk: WriterModel.Disk, workerId: u32, now: i64)
    ensures var step := Carry(store, disk, PlanLoss(store, workerId, now));
            step.result == StoreOk ==> step.store.fault == store.fault
  {
    hide LoseWorker, FindSlot, ActiveSlot, StoreModel.JobTime, WriterModel.Append;
  }

  /** The message handed out for the job that this dispatch picks. */
  ghost predicate Dispatched(store: Store, workerId: u32, now: i64, assignment: Option<Message>) {
    var time := StoreModel.JobTime(store, now);
    time.Some? &&
    var change := SchedulerModel.Dispatch(store.jobs, workerId, time.value);
    change.Ok? && assignment == Some(Assignment(change.value.job))
  }

  // ---------- the five operations, step by step ----------

  /** Give up without publishing anything, and latch the fault if there is one. */
  ghost function GiveUp(store: Store, disk: WriterModel.Disk, result: StoreResult, fault: Fault): Step {
    Step(result, if fault == NoFault then store else store.(fault := fault), disk)
  }

  ghost function SubmitAt(store: Store, disk: WriterModel.Disk, submission: Submission, time: i64): Step {
    var change := SchedulerModel.Submit(store.jobs, submission, time);
    if change == Err(SchedulerError.QueueError) then GiveUp(store, disk, Fatal, InternalFault)
    else if change.Err? then GiveUp(store, disk, Rejected, NoFault)
    else Carry(store, disk, PlanCommit(store, change.value.next, change.value.job.id, JobCreated))
  }

  ghost function AssignAt(store: Store, disk: WriterModel.Disk, workerId: u32, time: i64): Step {
    var change := SchedulerModel.Dispatch(store.jobs, workerId, time);
    if change == Err(Empty) then GiveUp(store, disk, NothingToDo, NoFault)
    else if change == Err(WorkerBusy) then GiveUp(store, disk, Rejected, NoFault)
    else if change.Err? then GiveUp(store, disk, Fatal, InternalFault)
    else Carry(store, disk, PlanCommit(store, change.value.next, change.value.job.id, JobAssigned))
  }

  /** A lost worker's job is queued again or has failed; a report has more outcomes. */
  function OutcomeKind(state: JobState, lost: bool): Kind {
    if !lost then ReportKind(state) else if state == Queued then JobRequeued else JobFailed
  }

  ghost function OutcomeAt(store: Store, disk: WriterModel.Disk, prepared: Scheduler, id: u64, lost: bool): Step {
    var slot := FindSlot(prepared.jobs, id);
    if slot == |prepared.jobs| then GiveUp(store, disk, Fatal, InternalFault)
    else Carry(store, disk, PlanCommit(store, prepared, id, OutcomeKind(prepared.jobs[slot].state, lost)))
  }

  ghost function ReportAt(store: Store, disk: WriterModel.Disk, workerId: u32, report: Message, id: u64,
      time: i64): Step {
    var change := ApplyReport(store.jobs, workerId, report, time);
    if change == Err(SchedulerError.QueueError) then GiveUp(store, disk, Fatal, InternalFault)
    else if change.Err? then GiveUp(store, disk, Rejected, NoFault)
    else OutcomeAt(store, disk, change.value.next, id, false)
  }

  ghost function LossAt(store: Store, disk: WriterModel.Disk, workerId: u32, id: u64, time: i64): Step {
    var change := LoseWorker(store.jobs, workerId, time);
    if change.Err? then GiveUp(store, disk, Fatal, InternalFault)
    else OutcomeAt(store, disk, change.value.next, id, true)
  }

  lemma RegisterStep(store: Store, disk: WriterModel.Disk, fd: int, now: i64)
    ensures Execute(store, disk, RegisterWorker(fd, now)) ==
            var registered := RegistryModel.Register(store.workers, fd, now);
            if !Usable(store) then GiveUp(store, disk, Fatal, NoFault)
            else if now < 0 then GiveUp(store, disk, Fatal, ClockFault)
            else if registered.Err? then GiveUp(store, disk, Rejected, NoFault)
            else Carry(store, disk, Commit(WorkerAllocated(store.wal.nextSequence, store.workers.nextWorkerId),
                                           store.jobs, registered.value, store.lastJobTime))
  {
    hide RegistryModel.Register, WriterModel.Append;
  }

  lemma SubmitStep(store: Store, disk: WriterModel.Disk, submission: Submission, now: i64)
    ensures Execute(store, disk, SubmitJob(submission, now)) ==
            var time := StoreModel.JobTime(store, now);
            if !Usable(store) then GiveUp(store, disk, Fatal, NoFault)
            else if time.None? then GiveUp(store, disk, Fatal, ClockFault)
            else SubmitAt(store, disk, submission, time.value)
  {
    hide SchedulerModel.Submit, StoreModel.JobTime, PlanCommit, WriterModel.Append;
  }

  lemma AssignStep(store: Store, disk: WriterModel.Disk, workerId: u32, now: i64)
    ensures Execute(store, disk, AssignJob(workerId, now)) ==
            var time := StoreModel.JobTime(store, now);
            if !Usable(store) then GiveUp(store, disk, Fatal, NoFault)
            else if !IsAlive(store.workers, workerId) then GiveUp(store, disk, Rejected, NoFault)
            else if time.None? then GiveUp(store, disk, Fatal, ClockFault)
            else AssignAt(store, disk, workerId, time.value)
  {
    hide SchedulerModel.Dispatch, StoreModel.JobTime, PlanCommit, WriterModel.Append, IsAlive;
  }

  lemma ReportStep(store: Store, disk: WriterModel.Disk, workerId: u32, report: Message, now: i64)
    ensures Execute(store, disk, ReportJob(workerId, report, now)) ==
            var time := StoreModel.JobTime(store, now);
            var held := ActiveSlot(store.jobs.jobs, workerId);
            if !Usable(store) then GiveUp(store, disk, Fatal, NoFault)
            else if !IsAlive(store.workers, workerId) || held == |store.jobs.jobs| then
              GiveUp(store, disk, Rejected, NoFault)
            else if time.None? then GiveUp(store, disk, Fatal, ClockFault)
            else ReportAt(store, disk, workerId, report, store.jobs.jobs[held].id, time.value)
  {
    hide ApplyReport, StoreModel.JobTime, PlanCommit, WriterModel.Append, IsAlive, ActiveSlot, FindSlot;
  }

  lemma LossStep(store: Store, disk: WriterModel.Disk, workerId: u32, now: i64)
    ensures Carry(store, disk, PlanLoss(store, workerId, now)) ==
            var time := StoreModel.JobTime(store, now);
            var held := ActiveSlot(store.jobs.jobs, workerId);
            if held == |store.jobs.jobs| then GiveUp(store, disk, NothingToDo, NoFault)
            else if time.None? then GiveUp(store, disk, Fatal, ClockFault)
            else LossAt(store, disk, workerId, store.jobs.jobs[held].id, time.value)
  {
    hide LoseWorker, StoreModel.JobTime, PlanCommit, WriterModel.Append, ActiveSlot, FindSlot;
  }
}
