/** A job record that the operations of src/coordinator/job.c update in place. */
module JobRecords {
  import opened Base
  import opened JobModel

  /** What an operation reports and leaves: the new record, or an error and no change. */
  function Outcome(before: Job, result: JobResult): (Option<JobError>, Job) {
    if result.Ok? then (None, result.value) else (Some(result.error), before)
  }

  /** The storage behind a `struct faultline_job *`: a record whose fields are assigned
      one after the other. */
  class JobRecord {
    var job: Job

    /** `candidate = scheduler->jobs[slot]`. */
    constructor Copy(job: Job)
      ensures this.job == job
    {
      this.job := job;
    }

    /** Storage that has not been filled in. */
    constructor Blank() {
    }

    method Init(id: u64, taskType: u16, arguments: bytes, maxRetries: u32, now: i64) returns (error: Option<JobError>)
      modifies this
      ensures (error, job) == Outcome(old(job), JobModel.Init(id, taskType, arguments, maxRetries, now))
    {
      if id == 0 || now < 0 || taskType < FIRST_TASK || taskType > LAST_TASK {
        return Some(InvalidArgument);
      }
      if |arguments| > MAX_ARGUMENT_SIZE {
        return Some(PayloadTooLarge);
      }
      job := Job(id, taskType, arguments, Queued, 0, 0, 0, maxRetries, now, now,
                 TIME_UNSET, TIME_UNSET, TIME_UNSET, [], NoFailure);
      error := None;
    }

    method Assign(workerId: u32, now: i64) returns (error: Option<JobError>)
      modifies this
      ensures (error, job) == Outcome(old(job), JobModel.Assign(old(job), workerId, now))
    {
      error := CheckTransition(job, Assigned, now);
      if error.Some? {
        return;
      }
      if workerId == 0 {
        return Some(InvalidArgument);
      }
      job := job.(state := Assigned);
      job := job.(workerId := workerId);
      job := job.(attempt := (job.attempt + 1) % 0x1_0000_0000_0000_0000);
      job := job.(assignedAt := now);
      job := job.(updatedAt := now);
      job := job.(failure := NoFailure);
    }

    method Start(workerId: u32, attempt: u64, now: i64) returns (error: Option<JobError>)
      modifies this
      ensures (error, job) == Outcome(old(job), JobModel.Start(old(job), workerId, attempt, now))
    {
      error := CheckTransition(job, Running, now);
      if error.Some? {
        return;
      }
      error := CheckAttempt(job, workerId, attempt);
      if error.Some? {
        return;
      }
      job := job.(state := Running);
      job := job.(startedAt := now);
      job := job.(updatedAt := now);
    }

    method Complete(workerId: u32, attempt: u64, data: bytes, now: i64) returns (error: Option<JobError>)
      modifies this
      ensures (error, job) == Outcome(old(job), JobModel.Complete(old(job), workerId, attempt, data, now))
    {
      error := CheckTransition(job, Done, now);
      if error.Some? {
        return;
      }
      error := CheckAttempt(job, workerId, attempt);
      if error.Some? {
        return;
      }
      if |data| > MAX_RESULT_SIZE {
        return Some(PayloadTooLarge);
      }
      job := job.(result := data);
      job := job.(state := Done);
      job := job.(finishedAt := now);
      job := job.(updatedAt := now);
    }

    method Fail(workerId: u32, attempt: u64, failure: Failure, now: i64) returns (error: Option<JobError>)
      modifies this
      ensures (error, job) == Outcome(old(job), JobModel.Fail(old(job), workerId, attempt, failure, now))
    {
      if failure == NoFailure {
        return Some(InvalidArgument);
      }
      var next := if job.retryCount < job.maxRetries then Queued else Failed;
      error := CheckTransition(job, next, now);
      if error.Some? {
        return;
      }
      error := CheckAttempt(job, workerId, attempt);
      if error.Some? {
        return;
      }
      job := job.(state := next);
      job := job.(updatedAt := now);
      job := job.(failure := failure);
      if next == Queued {
        job := job.(retryCount := job.retryCount + 1);
        job := job.(workerId := 0);
        job := job.(assignedAt := TIME_UNSET);
        job := job.(startedAt := TIME_UNSET);
        job := job.(finishedAt := TIME_UNSET);
      } else {
        job := job.(finishedAt := now);
      }
    }
  }
}
