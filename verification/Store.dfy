/** The durable coordinator store as a value (src/coordinator/coordinator_store.c).

    Every operation prepares a complete transaction without touching what is
    published, appends and syncs one record, and only then publishes.  `Plan` is the
    preparation; `Carry` appends and publishes. */
module StoreModel {
  import opened Base
  import opened JobModel
  import opened Messages
  import opened SchedulerModel
  import opened RegistryModel
  import opened WalFormat
  import opened WriterModel

  datatype Fault = NoFault | OpenFault | WalFault | ClockFault | InternalFault

  datatype StoreResult = StoreOk | Rejected | NothingToDo | Fatal | Killed

  datatype Store = Store(
    jobs: Scheduler, workers: Registry, wal: Writer, fault: Fault, isOpen: bool,
    timeBase: i64, sessionStart: i64, lastJobTime: i64, interrupted: nat)

  datatype Operation =
    | RegisterWorker(fd: int, now: i64)
    | SubmitJob(submission: Submission, now: i64)
    | AssignJob(workerId: u32, now: i64)
    | ReportJob(workerId: u32, report: Message, now: i64)
    | LoseWorkerOf(workerId: u32, now: i64)

  /** A prepared transaction, or the reason there is none. */
  datatype Plan =
    | Refuse(result: StoreResult, fault: Fault)
    | Commit(record: Record, jobs: Scheduler, workers: Registry, time: i64)

  predicate Usable(store: Store) {
    store.isOpen && store.fault == NoFault
  }

  /** `job_time`: raw clock readings of this session placed on the logical timeline
      that spans sessions; `None` is a clock failure. */
  function JobTime(store: Store, raw: i64): Option<i64> {
    if raw < store.sessionStart || raw < 0 || raw - store.sessionStart > I64_MAX - store.timeBase then None
    else
      var time := store.timeBase + (raw - store.sessionStart);
      if time < store.lastJobTime then None else Some(time)
  }

  /** `commit_job` up to the append: the record is looked up in the prepared store. */
  function PlanCommit(store: Store, prepared: Scheduler, id: u64, kind: Kind): Plan {
    var slot := FindSlot(prepared.jobs, id);
    if id == 0 || slot == |prepared.jobs| then Refuse(Fatal, InternalFault)
    else
      var job := prepared.jobs[slot];
      Commit(JobSnapshot(kind, store.wal.nextSequence, job), prepared, store.workers, job.updatedAt)
  }

  function PlanRegister(store: Store, fd: int, now: i64): Plan {
    if now < 0 then Refuse(Fatal, ClockFault)
    else
      var registered := Register(store.workers, fd, now);
      if registered.Err? then Refuse(Rejected, NoFault)
      else Commit(WorkerAllocated(store.wal.nextSequence, store.workers.nextWorkerId),
                  store.jobs, registered.value, store.lastJobTime)
  }

  function PlanSubmit(store: Store, submission: Submission, now: i64): Plan {
    var time := JobTime(store, now);
    if time.None? then Refuse(Fatal, ClockFault)
    else
      var change := Submit(store.jobs, submission, time.value);
      if change == Err(SchedulerError.QueueError) then Refuse(Fatal, InternalFault)
      else if change.Err? then Refuse(Rejected, NoFault)
      else PlanCommit(store, change.value.next, change.value.job.id, JobCreated)
  }

  function PlanAssign(store: Store, workerId: u32, now: i64): Plan {
    if !IsAlive(store.workers, workerId) then Refuse(Rejected, NoFault)
    else
      var time := JobTime(store, now);
      if time.None? then Refuse(Fatal, ClockFault)
      else
        var change := Dispatch(store.jobs, workerId, time.value);
        if change == Err(Empty) then Refuse(NothingToDo, NoFault)
        else if change == Err(WorkerBusy) then Refuse(Rejected, NoFault)
        else if change.Err? then Refuse(Fatal, InternalFault)
        else PlanCommit(store, change.value.next, change.value.job.id, JobAssigned)
  }

  function ReportKind(state: JobState): Kind {
    match state
    case Running => JobStarted
    case Done => JobCompleted
    case Queued => JobRequeued
    case _ => JobFailed
  }

  /** The report is applied to the job it names; the record committed is that of the
      job the reporting worker holds. */
  function PlanReport(store: Store, workerId: u32, report: Message, now: i64): Plan {
    var held := ActiveSlot(store.jobs.jobs, workerId);
    if !IsAlive(store.workers, workerId) || held == |store.jobs.jobs| then Refuse(Rejected, NoFault)
    else
      var time := JobTime(store, now);
      if time.None? then Refuse(Fatal, ClockFault)
      else
        var change := ApplyReport(store.jobs, workerId, report, time.value);
        if change == Err(SchedulerError.QueueError) then Refuse(Fatal, InternalFault)
        else if change.Err? then Refuse(Rejected, NoFault)
        else
          var id := store.jobs.jobs[held].id;
          var slot := FindSlot(change.value.next.jobs, id);
          if slot == |change.value.next.jobs| then Refuse(Fatal, InternalFault)
          else PlanCommit(store, change.value.next, id, ReportKind(change.value.next.jobs[slot].state))
  }

  /** `commit_worker_loss` up to the append. */
  function PlanLoss(store: Store, workerId: u32, now: i64): Plan {
    var held := ActiveSlot(store.jobs.jobs, workerId);
    if held == |store.jobs.jobs| then Refuse(NothingToDo, NoFault)
    else
      var time := JobTime(store, now);
      if time.None? then Refuse(Fatal, ClockFault)
      else
        var change := LoseWorker(store.jobs, workerId, time.value);
        if change.Err? then Refuse(Fatal, InternalFault)
        else
          var id := store.jobs.jobs[held].id;
          var slot := FindSlot(change.value.next.jobs, id);
          if slot == |change.value.next.jobs| then Refuse(Fatal, InternalFault)
          else PlanCommit(store, change.value.next, id,
                          if change.value.next.jobs[slot].state == Queued then JobRequeued else JobFailed)
  }

  function PlanFor(store: Store, op: Operation): Plan {
    match op
    case RegisterWorker(fd, now) => PlanRegister(store, fd, now)
    case SubmitJob(submission, now) => PlanSubmit(store, submission, now)
    case AssignJob(workerId, now) => PlanAssign(store, workerId, now)
    case ReportJob(workerId, report, now) => PlanReport(store, workerId, report, now)
    case LoseWorkerOf(workerId, now) => PlanLoss(store, workerId, now)
  }

  datatype Step = Step(result: StoreResult, store: Store, disk: Disk)

  /** Append and sync, then publish; nothing is published otherwise. */
  function Carry(store: Store, disk: Disk, plan: Plan): Step {
    match plan
    case Refuse(result, fault) =>
      Step(result, if fault == NoFault then store else store.(fault := fault), disk)
    case Commit(record, jobs, workers, time) =>
      var out := Append(store.wal, disk, record);
      if out.result == WriteOk then
        Step(StoreOk, store.(wal := out.writer, jobs := jobs, workers := workers, lastJobTime := time), out.disk)
      else if out.result == WriteKilled then
        Step(Killed, store.(wal := out.writer), out.disk)
      else
        Step(Fatal, store.(wal := out.writer, fault := WalFault), out.disk)
  }

  /** The five public operations of the store. */
  function Execute(store: Store, disk: Disk, op: Operation): Step {
    if !Usable(store) then Step(Fatal, store, disk) else Carry(store, disk, PlanFor(store, op))
  }
}
