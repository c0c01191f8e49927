/** The job store and its scheduler as a value (src/coordinator/scheduler.c), with the
    invariant every reachable store satisfies. */
module SchedulerModel {
  import opened Base
  import opened JobModel
  import opened Messages

  const STORE_CAPACITY: nat := 256
  const QUEUE_CAPACITY: nat := 256
  const TASK_FAILURE_CODE: u16 := 1

  datatype Scheduler = Scheduler(jobs: seq<Job>, nextJobId: u64, pending: seq<u64>)

  datatype SchedulerError =
    | InvalidArgument | Full | IdExhausted | Empty | WorkerBusy | InvalidJob | QueueError

  /** An accepted operation: the store after it and the one record it changed. */
  datatype Change = Change(next: Scheduler, job: Job)

  type Outcome = Result<Change, SchedulerError>

  datatype QueueError = QueueInvalidArgument | QueueInvalidState | QueueDuplicate | QueueFull | QueueEmpty

  function Initial(): Scheduler {
    Scheduler([], 1, [])
  }

  /** `faultline_job_queue_push` on the queue's contents. */
  function Push(pending: seq<u64>, job: Job): Result<seq<u64>, QueueError> {
    if job.id == 0 then Err(QueueInvalidArgument)
    else if job.state != Queued || job.workerId != 0 then Err(QueueInvalidState)
    else if job.id in pending then Err(QueueDuplicate)
    else if |pending| >= QUEUE_CAPACITY then Err(QueueFull)
    else Ok(pending + [job.id])
  }

  /** `find_slot`: the first record with this ID, or the number of records. */
  function FindSlot(jobs: seq<Job>, id: u64): (slot: nat)
    ensures slot <= |jobs|
    ensures slot < |jobs| ==> jobs[slot].id == id
    ensures forall k :: 0 <= k < slot ==> jobs[k].id != id
  {
    if jobs == [] || jobs[0].id == id then 0 else 1 + FindSlot(jobs[1..], id)
  }

  predicate Leased(job: Job, workerId: u32) {
    job.workerId == workerId && IsActive(job)
  }

  /** `faultline_scheduler_active`: the slot of the job this worker holds, or the
      number of records when it holds none. */
  function ActiveSlot(jobs: seq<Job>, workerId: u32): (slot: nat)
    ensures slot <= |jobs|
    ensures slot < |jobs| ==> workerId != 0 && Leased(jobs[slot], workerId)
    ensures workerId != 0 ==> forall k :: 0 <= k < slot ==> !Leased(jobs[k], workerId)
  {
    if workerId == 0 then |jobs|
    else if jobs == [] || Leased(jobs[0], workerId) then 0
    else 1 + ActiveSlot(jobs[1..], workerId)
  }

  function Submit(s: Scheduler, submission: Submission, now: i64): Outcome {
    if now < 0 then Err(SchedulerError.InvalidArgument)
    else if |s.jobs| >= STORE_CAPACITY then Err(Full)
    else if s.nextJobId == 0 then Err(IdExhausted)
    else
      var job := Init(s.nextJobId, submission.taskType, submission.arguments, submission.maxRetries, now);
      if job.Err? then Err(InvalidJob)
      else
        var pushed := Push(s.pending, job.value);
        if pushed.Err? then Err(SchedulerError.QueueError)
        else Ok(Change(Scheduler(s.jobs + [job.value], Succ64(job.value.id), pushed.value), job.value))
  }

  function Dispatch(s: Scheduler, workerId: u32, now: i64): Outcome {
    if workerId == 0 || now < 0 then Err(SchedulerError.InvalidArgument)
    else if ActiveSlot(s.jobs, workerId) < |s.jobs| then Err(WorkerBusy)
    else if s.pending == [] then Err(Empty)
    else
      var slot := FindSlot(s.jobs, s.pending[0]);
      if slot == |s.jobs| then Err(InvalidJob)
      else
        var job := Assign(s.jobs[slot], workerId, now);
        if job.Err? then Err(InvalidJob)
        else Ok(Change(s.(jobs := s.jobs[slot := job.value], pending := s.pending[1..]), job.value))
  }

  /** The assignment message `faultline_scheduler_assign` produces for a job. */
  function Assignment(job: Job): Message {
    JobAssign(Identity(job.id, job.workerId, job.attempt), job.taskType, job.arguments)
  }

  /** `publish_outcome`: a job that is queued again joins the queue's tail. */
  function PublishOutcome(s: Scheduler, slot: nat, job: Job): Outcome
    requires slot < |s.jobs|
  {
    if job.state == Queued then
      var pushed := Push(s.pending, job);
      if pushed.Err? then Err(SchedulerError.QueueError)
      else Ok(Change(s.(jobs := s.jobs[slot := job], pending := pushed.value), job))
    else Ok(Change(s.(jobs := s.jobs[slot := job]), job))
  }

  function ReportIdentity(report: Message): Option<Identity> {
    match report
    case StartedReport(identity) => Some(identity)
    case CompletedReport(identity, _) => Some(identity)
    case FailedReport(identity, _) => Some(identity)
    case _ => None
  }

  /** The job record after a report that names its current attempt. */
  function ReportedJob(job: Job, workerId: u32, report: Message, now: i64): Option<Job>
  {
    match report
    case StartedReport(identity) =>
      var r := Start(job, workerId, identity.attempt, now);
      if r.Ok? then Some(r.value) else None
    case CompletedReport(identity, result) =>
      var r := Complete(job, workerId, identity.attempt, result, now);
      if r.Ok? then Some(r.value) else None
    case FailedReport(identity, failure) =>
      if failure != TASK_FAILURE_CODE then None
      else
        var r := Fail(job, workerId, identity.attempt, TaskFailure, now);
        if r.Ok? then Some(r.value) else None
    case _ => None
  }

  function ApplyReport(s: Scheduler, workerId: u32, report: Message, now: i64): Outcome {
    if workerId == 0 || now < 0 || ReportIdentity(report).None? then Err(SchedulerError.InvalidArgument)
    else
      var identity := ReportIdentity(report).value;
      var slot := FindSlot(s.jobs, identity.jobId);
      if identity.workerId != workerId || slot == |s.jobs| then Err(InvalidJob)
      else
        var job := ReportedJob(s.jobs[slot], workerId, report, now);
        if job.None? then Err(InvalidJob) else PublishOutcome(s, slot, job.value)
  }

  function LoseWorker(s: Scheduler, workerId: u32, now: i64): Outcome {
    if workerId == 0 || now < 0 then Err(SchedulerError.InvalidArgument)
    else
      var slot := ActiveSlot(s.jobs, workerId);
      if slot == |s.jobs| then Err(Empty)
      else
        var job := Fail(s.jobs[slot], workerId, s.jobs[slot].attempt, WorkerLost, now);
        if job.Err? then Err(InvalidJob)
        else PublishOutcome(s, FindSlot(s.jobs, job.value.id), job.value)
  }

  // ---------- the invariant ----------

  predicate IdsIncrease(jobs: seq<Job>) {
    forall i, j :: 0 <= i < j < |jobs| ==> jobs[i].id < jobs[j].id
  }

  predicate OneLease(jobs: seq<Job>) {
    forall i, j :: 0 <= i < j < |jobs| && IsActive(jobs[i]) && IsActive(jobs[j]) ==>
      jobs[i].workerId != jobs[j].workerId
  }

  predicate AllJobsOk(jobs: seq<Job>) {
    forall i :: 0 <= i < |jobs| ==> JobOk(jobs[i])
  }

  /** The queue lists exactly the queued jobs, once each. */
  predicate PendingIsQueued(jobs: seq<Job>, pending: seq<u64>) {
    && NoDuplicates(pending)
    && (forall i :: 0 <= i < |jobs| ==> (jobs[i].state == Queued <==> jobs[i].id in pending))
    && (forall id :: id in pending ==> FindSlot(jobs, id) < |jobs|)
  }

  function NextId(jobs: seq<Job>): u64 {
    if jobs == [] then 1 else Succ64(jobs[|jobs| - 1].id)
  }

  predicate SchedulerOk(s: Scheduler) {
    && |s.jobs| <= STORE_CAPACITY
    && AllJobsOk(s.jobs)
    && IdsIncrease(s.jobs)
    && OneLease(s.jobs)
    && PendingIsQueued(s.jobs, s.pending)
    && s.nextJobId == NextId(s.jobs)
  }

  lemma SlotOfId(jobs: seq<Job>, i: nat)
    requires IdsIncrease(jobs) && i < |jobs|
    ensures FindSlot(jobs, jobs[i].id) == i
  {
    assert forall k :: 0 <= k < |jobs| && k != i ==> jobs[k].id != jobs[i].id;
  }

  /** Replacing a record by one with the same ID leaves it where it is found. */
  lemma SlotAfterReplace(jobs: seq<Job>, slot: nat, job: Job)
    requires slot < |jobs| && FindSlot(jobs, job.id) == slot
    ensures FindSlot(jobs[slot := job], job.id) == slot
  {
    var after := jobs[slot := job];
    assert after[slot].id == job.id && forall k :: 0 <= k < slot ==> after[k].id != job.id;
  }

  /** A worker's active job is found by its slot, because leases are exclusive. */
  lemma SlotOfLease(jobs: seq<Job>, i: nat)
    requires OneLease(jobs) && AllJobsOk(jobs) && i < |jobs| && IsActive(jobs[i])
    ensures ActiveSlot(jobs, jobs[i].workerId) == i
  {
    assert jobs[i].workerId != 0 && Leased(jobs[i], jobs[i].workerId);
    assert forall k :: 0 <= k < i ==> !Leased(jobs[k], jobs[i].workerId);
  }

  // ---------- the two ways a store changes ----------

  /** A new job joins the store and the queue. */
  lemma EnlistOk(s: Scheduler, job: Job)
    requires SchedulerOk(s) && |s.jobs| < STORE_CAPACITY
    requires JobOk(job) && job.state == Queued
    requires forall i :: 0 <= i < |s.jobs| ==> s.jobs[i].id < job.id
    ensures SchedulerOk(Scheduler(s.jobs + [job], Succ64(job.id), s.pending + [job.id]))
  {
    hide ValidSnapshot;
    var jobs, pending := s.jobs + [job], s.pending + [job.id];
    assert job.id !in s.pending;
    forall id | id in pending ensures FindSlot(jobs, id) < |jobs| {
      if id == job.id {
        assert jobs[|s.jobs|].id == id;
      } else {
        assert jobs[FindSlot(s.jobs, id)].id == id;
      }
    }
  }

  /** One record is replaced by a successor with the same ID. */
  lemma ReplaceOk(s: Scheduler, slot: nat, job: Job, pending: seq<u64>)
    requires SchedulerOk(s) && slot < |s.jobs| && JobOk(job) && job.id == s.jobs[slot].id
    requires IsActive(job) ==> forall k :: 0 <= k < |s.jobs| && k != slot ==> !Leased(s.jobs[k], job.workerId)
    requires NoDuplicates(pending)
    requires forall id :: id in pending <==> if id == job.id then job.state == Queued else id in s.pending
    ensures SchedulerOk(s.(jobs := s.jobs[slot := job], pending := pending))
  {
    hide ValidSnapshot;
    var jobs := s.jobs[slot := job];
    assert forall k :: 0 <= k < |jobs| ==> jobs[k].id == s.jobs[k].id;
    assert forall k :: 0 <= k < |jobs| && k != slot ==> jobs[k].id != job.id;
    forall id | id in pending ensures FindSlot(jobs, id) < |jobs| {
      if id == job.id {
        assert jobs[slot].id == id;
      } else {
        assert jobs[FindSlot(s.jobs, id)].id == id;
      }
    }
  }

  /** The queue has room for every job that is not already in it. */
  lemma RoomToRequeue(s: Scheduler, slot: nat)
    requires SchedulerOk(s) && slot < |s.jobs| && s.jobs[slot].state != Queued
    ensures |s.pending| < QUEUE_CAPACITY
  {
    var ids := seq(|s.jobs|, i requires 0 <= i < |s.jobs| => s.jobs[i].id);
    assert NoDuplicates(ids);
    NoDuplicatesCardinality(ids);
    NoDuplicatesCardinality(s.pending);
    forall id | id in s.pending ensures id in Elements(ids) - {s.jobs[slot].id} {
      assert ids[FindSlot(s.jobs, id)] == id;
    }
    assert ids[slot] in Elements(ids);
    SubsetCardinality(Elements(s.pending), Elements(ids) - {s.jobs[slot].id});
  }

  /** The queue has room for a new job as long as the store has. */
  lemma RoomToSubmit(s: Scheduler)
    requires SchedulerOk(s)
    ensures |s.pending| <= |s.jobs|
  {
    var ids := seq(|s.jobs|, i requires 0 <= i < |s.jobs| => s.jobs[i].id);
    assert NoDuplicates(ids);
    NoDuplicatesCardinality(ids);
    NoDuplicatesCardinality(s.pending);
    forall id | id in s.pending ensures id in Elements(ids) {
      assert ids[FindSlot(s.jobs, id)] == id;
    }
    SubsetCardinality(Elements(s.pending), Elements(ids));
  }
}
