/** The job store that the operations of src/coordinator/scheduler.c update in place. */
module JobStores {
  import opened Base
  import opened JobModel
  import opened Messages
  import opened SchedulerModel
  import opened JobRecords
  import opened JobQueues

  /** What an operation reports and leaves: the new store, or an error and no change. */
  function Publication(before: Scheduler, outcome: SchedulerModel.Outcome): (Option<SchedulerError>, Scheduler) {
    if outcome.Ok? then (None, outcome.value.next) else (Some(outcome.error), before)
  }

  class JobStore {
    const jobs: array<Job>
    var count: nat
    var nextJobId: u64
    const pending: JobQueue

    ghost function Repr(): set<object> {
      {this, jobs, pending, pending.ids}
    }

    /** The two stores share no storage. */
    ghost predicate Apart(other: JobStore) {
      this != other && jobs != other.jobs && pending != other.pending && pending.ids != other.pending.ids
    }

    ghost predicate Valid()
      reads this, jobs, pending, pending.ids
    {
      jobs.Length == STORE_CAPACITY && count <= STORE_CAPACITY && pending.Valid()
    }

    function Value(): (s: Scheduler)
      requires Valid()
      reads this, jobs, pending, pending.ids
      ensures |s.jobs| == count <= STORE_CAPACITY && s.nextJobId == nextJobId
    {
      Scheduler(jobs[..count], nextJobId, pending.Contents())
    }

    /** `faultline_scheduler_init`. */
    constructor ()
      ensures Valid() && Value() == Initial() && fresh(Repr())
    {
      jobs := new Job[STORE_CAPACITY];
      count := 0;
      nextJobId := 1;
      pending := new JobQueue();
    }

    method Get(slot: nat) returns (job: Job)
      requires Valid() && slot < count
      ensures job == Value().jobs[slot]
    {
      job := jobs[slot];
    }

    method Locate(id: u64) returns (slot: nat)
      requires Valid()
      ensures slot == FindSlot(Value().jobs, id)
    {
      slot := 0;
      while slot < count
        invariant slot <= count
        invariant forall k :: 0 <= k < slot ==> Value().jobs[k].id != id
      {
        if jobs[slot].id == id {
          assert Value().jobs[slot].id == id;
          return;
        }
        slot := slot + 1;
      }
    }

    /** `faultline_scheduler_active`, as a slot. */
    method Active(workerId: u32) returns (slot: nat)
      requires Valid()
      ensures slot == ActiveSlot(Value().jobs, workerId)
    {
      if workerId == 0 {
        return count;
      }
      slot := 0;
      while slot < count
        invariant slot <= count
        invariant forall k :: 0 <= k < slot ==> !Leased(Value().jobs[k], workerId)
      {
        if jobs[slot].workerId == workerId && (jobs[slot].state == Assigned || jobs[slot].state == Running) {
          assert Leased(Value().jobs[slot], workerId);
          return;
        }
        slot := slot + 1;
      }
    }

    method Submit(submission: Submission, now: i64) returns (error: Option<SchedulerError>, id: u64)
      requires Valid()
      modifies Repr()
      ensures Valid()
      ensures (error, Value()) == Publication(old(Value()), SchedulerModel.Submit(old(Value()), submission, now))
      ensures error == None ==>
                id == old(nextJobId) == SchedulerModel.Submit(old(Value()), submission, now).value.job.id
    {
      hide JobModel.Init, JobQueue.Contents;
      id := 0;
      if now < 0 {
        return Some(SchedulerError.InvalidArgument), id;
      }
      if count == STORE_CAPACITY {
        return Some(Full), id;
      }
      if nextJobId == 0 {
        return Some(IdExhausted), id;
      }
      var record := new JobRecord.Blank();
      var failed := record.Init(nextJobId, submission.taskType, submission.arguments, submission.maxRetries, now);
      if failed.Some? {
        return Some(InvalidJob), id;
      }
      var rejected := pending.Push(record.job);
      if rejected.Some? {
        return Some(SchedulerError.QueueError), id;
      }
      id := record.job.id;
      assert id == old(nextJobId) by { InitKeepsId(old(nextJobId), submission, now); }
      jobs[count] := record.job;
      count := count + 1;
      assert jobs[..count] == old(jobs[..count]) + [record.job];
      nextJobId := Succ64(id);
      error := None;
    }

    /** `faultline_scheduler_assign`; on success the assignment names the new attempt. */
    method Dispatch(workerId: u32, now: i64) returns (error: Option<SchedulerError>, assignment: Option<Message>)
      requires Valid()
      modifies Repr()
      ensures Valid()
      ensures (error, Value()) == Publication(old(Value()), SchedulerModel.Dispatch(old(Value()), workerId, now))
      ensures error == None ==>
                assignment == Some(Assignment(SchedulerModel.Dispatch(old(Value()), workerId, now).value.job))
    {
      hide JobModel.Assign, JobQueue.Contents, FindSlot, ActiveSlot;
      assignment := None;
      if workerId == 0 || now < 0 {
        return Some(SchedulerError.InvalidArgument), None;
      }
      var held := Active(workerId);
      if held < count {
        return Some(WorkerBusy), None;
      }
      var id := pending.Peek();
      if id.None? {
        return Some(Empty), None;
      }
      var slot := Locate(id.value);
      if slot == count {
        return Some(InvalidJob), None;
      }
      var candidate := new JobRecord.Copy(jobs[slot]);
      var failed := candidate.Assign(workerId, now);
      if failed.Some? {
        return Some(InvalidJob), None;
      }
      assignment := Some(JobAssign(Identity(candidate.job.id, workerId, candidate.job.attempt),
                                   candidate.job.taskType, candidate.job.arguments));
      assert candidate.job.workerId == workerId by { AssignNamesWorker(old(jobs[slot]), workerId, now); }
      var removed := pending.Pop();
      jobs[slot] := candidate.job;
      error := None;
    }

    /** `publish_outcome`. */
    method PublishOutcome(slot: nat, candidate: Job) returns (error: Option<SchedulerError>)
      requires Valid() && slot < count
      modifies Repr()
      ensures Valid()
      ensures (error, Value())
          == Publication(old(Value()), SchedulerModel.PublishOutcome(old(Value()), slot, candidate))
    {
      hide JobQueue.Contents;
      if candidate.state == Queued {
        var rejected := pending.Push(candidate);
        if rejected.Some? {
          return Some(SchedulerError.QueueError);
        }
      }
      jobs[slot] := candidate;
      error := None;
    }

    /** The part of `faultline_scheduler_report` that works on the candidate copy. */
    static method ApplyTo(candidate: JobRecord, workerId: u32, report: Message, now: i64) returns (ok: bool)
      requires ReportIdentity(report).Some?
      modifies candidate
      ensures ok <==> ReportedJob(old(candidate.job), workerId, report, now).Some?
      ensures ok ==> ReportedJob(old(candidate.job), workerId, report, now) == Some(candidate.job)
    {
      hide JobModel.Start, JobModel.Complete, JobModel.Fail;
      match report {
        case StartedReport(identity) =>
          var failed := candidate.Start(workerId, identity.attempt, now);
          ok := failed.None?;
        case CompletedReport(identity, result) =>
          var failed := candidate.Complete(workerId, identity.attempt, result, now);
          ok := failed.None?;
        case FailedReport(identity, failure) =>
          if failure != TASK_FAILURE_CODE {
            return false;
          }
          var failed := candidate.Fail(workerId, identity.attempt, TaskFailure, now);
          ok := failed.None?;
      }
    }

    method Report(workerId: u32, report: Message, now: i64) returns (error: Option<SchedulerError>)
      requires Valid()
      modifies Repr()
      ensures Valid()
      ensures (error, Value()) == Publication(old(Value()), ApplyReport(old(Value()), workerId, report, now))
    {
      hide JobQueue.Contents, FindSlot, ReportedJob, SchedulerModel.PublishOutcome;
      if workerId == 0 || now < 0 || ReportIdentity(report).None? {
        return Some(SchedulerError.InvalidArgument);
      }
      var identity := ReportIdentity(report).value;
      var slot := Locate(identity.jobId);
      if identity.workerId != workerId || slot == count {
        return Some(InvalidJob);
      }
      var candidate := new JobRecord.Copy(jobs[slot]);
      var ok := ApplyTo(candidate, workerId, report, now);
      if !ok {
        return Some(InvalidJob);
      }
      error := PublishOutcome(slot, candidate.job);
    }

    method WorkerLost(workerId: u32, now: i64) returns (error: Option<SchedulerError>)
      requires Valid()
      modifies Repr()
      ensures Valid()
      ensures (error, Value()) == Publication(old(Value()), LoseWorker(old(Value()), workerId, now))
    {
      hide JobQueue.Contents, FindSlot, ActiveSlot, JobModel.Fail, SchedulerModel.PublishOutcome;
      if workerId == 0 || now < 0 {
        return Some(SchedulerError.InvalidArgument);
      }
      var held := Active(workerId);
      if held == count {
        return Some(Empty);
      }
      var candidate := new JobRecord.Copy(jobs[held]);
      var failed := candidate.Fail(workerId, candidate.job.attempt, Failure.WorkerLost, now);
      if failed.Some? {
        return Some(InvalidJob);
      }
      assert candidate.job.id == old(jobs[held].id) by { FailKeepsId(old(jobs[held]), workerId, now); }
      var slot := Locate(candidate.job.id);
      assert Value().jobs[held].id == candidate.job.id;
      error := PublishOutcome(slot, candidate.job);
    }

    /** The queue update of replay: an assignment takes the head, a queued job joins
        the tail. */
    method Requeue(taken: bool, job: Job) returns (ok: bool)
      requires Valid()
      requires taken ==> Value().pending != []
      modifies Repr()
      ensures Valid()
      ensures var pushed := SchedulerModel.Push(old(Value()).pending, job);
              && ok == (taken || job.state != Queued || pushed.Ok?)
              && Value() == old(Value()).(pending :=
                   if taken then old(Value()).pending[1..]
                   else if job.state == Queued && pushed.Ok? then pushed.value
                   else old(Value()).pending)
    {
      hide JobQueue.Contents;
      ok := true;
      if taken {
        var removed := pending.Pop();
      } else if job.state == Queued {
        var rejected := pending.Push(job);
        ok := rejected.None?;
      }
    }

    /** `scheduler->jobs[slot] = candidate`, where a new record goes behind the last. */
    method Put(slot: nat, job: Job)
      requires Valid() && slot <= count && slot < STORE_CAPACITY
      modifies this, jobs
      ensures Valid()
      ensures slot < old(count) ==> Value() == old(Value()).(jobs := old(Value()).jobs[slot := job])
      ensures slot == old(count) ==>
                Value() == Scheduler(old(Value()).jobs + [job], Succ64(job.id), old(Value()).pending)
    {
      hide JobQueue.Contents;
      jobs[slot] := job;
      if slot == count {
        count := count + 1;
        nextJobId := Succ64(job.id);
        assert jobs[..count] == old(jobs[..count]) + [job];
      }
    }

    /** `*scheduler = *other`: the C struct is copied as a whole. */
    method CopyFrom(other: JobStore)
      requires Valid() && other.Valid() && Apart(other)
      modifies Repr()
      ensures Valid() && Value() == old(other.Value())
      ensures other.Valid() && other.Value() == old(other.Value())
    {
      hide JobQueue.Contents;
      forall i | 0 <= i < STORE_CAPACITY {
        jobs[i] := other.jobs[i];
      }
      count := other.count;
      nextJobId := other.nextJobId;
      pending.CopyFrom(other.pending);
      assert jobs[..count] == other.jobs[..count];
    }
  }

  lemma InitKeepsId(id: u64, submission: Submission, now: i64)
    ensures var job := Init(id, submission.taskType, submission.arguments, submission.maxRetries, now);
            job.Ok? ==> job.value.id == id
  {}

  lemma AssignNamesWorker(job: Job, workerId: u32, now: i64)
    ensures Assign(job, workerId, now).Ok? ==> Assign(job, workerId, now).value.workerId == workerId
  {}

  lemma FailKeepsId(job: Job, workerId: u32, now: i64)
    ensures var failed := Fail(job, workerId, job.attempt, Failure.WorkerLost, now);
            failed.Ok? ==> failed.value.id == job.id
  {}
}
