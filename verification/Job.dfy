/** The job record and its transitions (src/coordinator/job.c).

    A job is a C struct that the coordinator copies by value, so it is a value
    here.  The functions give the outcome of each operation; `JobRecord` in
    JobRecord.dfy performs the same operations on a record in place. */
module JobModel {
  import opened Base

  const MAX_ARGUMENT_SIZE: nat := 1024
  const MAX_RESULT_SIZE: nat := 1024
  const TIME_UNSET: i64 := -1
  const FIRST_TASK: u16 := 1
  const LAST_TASK: u16 := 4

  datatype JobState = Queued | Assigned | Running | Done | Failed

  datatype Failure = NoFailure | TaskFailure | WorkerLost

  datatype Job = Job(
    id: u64, taskType: u16, arguments: bytes, state: JobState, workerId: u32,
    attempt: u64, retryCount: u32, maxRetries: u32,
    createdAt: i64, updatedAt: i64, assignedAt: i64, startedAt: i64, finishedAt: i64,
    result: bytes, failure: Failure)

  datatype JobError =
    | InvalidArgument | PayloadTooLarge | InvalidTransition
    | TimeReversed | WrongWorker | StaleAttempt

  type JobResult = Result<Job, JobError>

  predicate CanTransition(from: JobState, to: JobState) {
    match from
    case Queued => to == Assigned
    case Assigned => to == Running || to == Queued || to == Failed
    case Running => to == Done || to == Queued || to == Failed
    case Done => false
    case Failed => false
  }

  predicate IsActive(job: Job) {
    job.state == Assigned || job.state == Running
  }

  predicate IsTerminal(job: Job) {
    job.state == Done || job.state == Failed
  }

  /** `check_transition`; `None` stands for FAULTLINE_JOB_OK. */
  function CheckTransition(job: Job, next: JobState, now: i64): Option<JobError> {
    if now < 0 then Some(InvalidArgument)
    else if !CanTransition(job.state, next) then Some(InvalidTransition)
    else if now < job.updatedAt then Some(TimeReversed)
    else None
  }

  /** `check_attempt`. */
  function CheckAttempt(job: Job, workerId: u32, attempt: u64): Option<JobError> {
    if workerId == 0 || attempt == 0 then Some(InvalidArgument)
    else if workerId != job.workerId then Some(WrongWorker)
    else if attempt != job.attempt then Some(StaleAttempt)
    else None
  }

  function Init(id: u64, taskType: u16, arguments: bytes, maxRetries: u32, now: i64): JobResult {
    if id == 0 || now < 0 || taskType < FIRST_TASK || taskType > LAST_TASK then Err(InvalidArgument)
    else if |arguments| > MAX_ARGUMENT_SIZE then Err(PayloadTooLarge)
    else Ok(Job(id, taskType, arguments, Queued, 0, 0, 0, maxRetries,
                now, now, TIME_UNSET, TIME_UNSET, TIME_UNSET, [], NoFailure))
  }

  function Assign(job: Job, workerId: u32, now: i64): JobResult {
    var check := CheckTransition(job, Assigned, now);
    if check.Some? then Err(check.value)
    else if workerId == 0 then Err(InvalidArgument)
    else Ok(job.(state := Assigned, workerId := workerId,
                 attempt := (job.attempt + 1) % 0x1_0000_0000_0000_0000,
                 assignedAt := now, updatedAt := now, failure := NoFailure))
  }

  function Start(job: Job, workerId: u32, attempt: u64, now: i64): JobResult {
    var check := CheckTransition(job, Running, now);
    if check.Some? then Err(check.value)
    else
      var owner := CheckAttempt(job, workerId, attempt);
      if owner.Some? then Err(owner.value)
      else Ok(job.(state := Running, startedAt := now, updatedAt := now))
  }

  function Complete(job: Job, workerId: u32, attempt: u64, result: bytes, now: i64): JobResult {
    var check := CheckTransition(job, Done, now);
    if check.Some? then Err(check.value)
    else
      var owner := CheckAttempt(job, workerId, attempt);
      if owner.Some? then Err(owner.value)
      else if |result| > MAX_RESULT_SIZE then Err(PayloadTooLarge)
      else Ok(job.(state := Done, result := result, finishedAt := now, updatedAt := now))
  }

  /** Where a failed attempt leaves the job. */
  function AfterFailure(job: Job): JobState {
    if job.retryCount < job.maxRetries then Queued else Failed
  }

  function Fail(job: Job, workerId: u32, attempt: u64, failure: Failure, now: i64): JobResult {
    if failure == NoFailure then Err(InvalidArgument)
    else
      var next := AfterFailure(job);
      var check := CheckTransition(job, next, now);
      if check.Some? then Err(check.value)
      else
        var owner := CheckAttempt(job, workerId, attempt);
        if owner.Some? then Err(owner.value)
        else if next == Queued then
          Ok(job.(state := Queued, updatedAt := now, failure := failure,
                  retryCount := job.retryCount + 1, workerId := 0,
                  assignedAt := TIME_UNSET, startedAt := TIME_UNSET, finishedAt := TIME_UNSET))
        else
          Ok(job.(state := Failed, updatedAt := now, failure := failure, finishedAt := now))
  }

  // ---------- snapshots ----------

  /** The job record types of the log; the number is the type tag on disk. */
  datatype Kind = JobCreated | JobAssigned | JobStarted | JobCompleted | JobRequeued | JobFailed

  /** `valid_job`: one snapshot, on its own, is fit to be logged as `kind`. */
  predicate ValidSnapshot(kind: Kind, job: Job) {
    && job.id != 0
    && FIRST_TASK <= job.taskType <= LAST_TASK
    && |job.arguments| <= MAX_ARGUMENT_SIZE
    && |job.result| <= MAX_RESULT_SIZE
    && job.retryCount <= job.maxRetries
    && 0 <= job.createdAt <= job.updatedAt
    && match kind {
         case JobCreated =>
           && Idle(job)
           && job.attempt == 0 && job.retryCount == 0 && job.failure == NoFailure
           && job.updatedAt == job.createdAt
         case JobRequeued =>
           && Idle(job)
           && job.retryCount != 0 && job.attempt == job.retryCount && job.failure != NoFailure
         case JobAssigned =>
           && Owned(job)
           && job.state == Assigned && job.failure == NoFailure && job.result == []
           && job.updatedAt == job.assignedAt
           && job.startedAt == -1 && job.finishedAt == -1
         case JobStarted =>
           && Owned(job)
           && job.state == Running && job.failure == NoFailure && job.result == []
           && job.startedAt >= job.assignedAt
           && job.updatedAt == job.startedAt && job.finishedAt == -1
         case JobCompleted =>
           && Owned(job)
           && job.state == Done && job.failure == NoFailure
           && job.startedAt >= job.assignedAt && job.finishedAt >= job.startedAt
           && job.updatedAt == job.finishedAt
         case JobFailed =>
           && Owned(job)
           && job.state == Failed && job.failure != NoFailure
           && job.retryCount == job.maxRetries && job.result == []
           && (job.startedAt == -1 || job.startedAt >= job.assignedAt)
           && job.finishedAt >= job.assignedAt && job.finishedAt >= job.startedAt
           && job.updatedAt == job.finishedAt
       }
  }

  predicate Idle(job: Job) {
    && job.state == Queued && job.workerId == 0 && job.result == []
    && job.assignedAt == -1 && job.startedAt == -1 && job.finishedAt == -1
  }

  predicate Owned(job: Job) {
    && job.workerId != 0
    && job.attempt == job.retryCount + 1
    && job.createdAt <= job.assignedAt <= job.updatedAt
  }

  /** The one record type a job in this condition can be logged as. */
  function KindOf(job: Job): Kind {
    match job.state
    case Queued => if job.retryCount == 0 then JobCreated else JobRequeued
    case Assigned => JobAssigned
    case Running => JobStarted
    case Done => JobCompleted
    case Failed => JobFailed
  }

  /** The invariant of every job the coordinator holds. */
  predicate JobOk(job: Job) {
    ValidSnapshot(KindOf(job), job)
  }

  lemma ValidKindIsUnique(kind: Kind, job: Job)
    requires ValidSnapshot(kind, job)
    ensures kind == KindOf(job)
  {}

  /** Attempts are numbered by the retries already charged. */
  lemma AttemptCountsRetries(job: Job)
    requires JobOk(job)
    ensures job.attempt == job.retryCount + (if job.state == Queued then 0 else 1)
  {}

  lemma InitOk(id: u64, taskType: u16, arguments: bytes, maxRetries: u32, now: i64)
    ensures var r := Init(id, taskType, arguments, maxRetries, now);
            r.Ok? ==> JobOk(r.value) && KindOf(r.value) == JobCreated && r.value.id == id && r.value.updatedAt == now
  {}

  lemma AssignOk(job: Job, workerId: u32, now: i64)
    requires JobOk(job)
    ensures Assign(job, workerId, now).Ok? <==>
              0 <= now && job.state == Queued && job.updatedAt <= now && workerId != 0
    ensures var r := Assign(job, workerId, now);
            r.Ok? ==> JobOk(r.value) && Advances(job, r.value, now) && r.value.state == Assigned
  {}

  lemma StartOk(job: Job, workerId: u32, attempt: u64, now: i64)
    requires JobOk(job)
    ensures Start(job, workerId, attempt, now).Ok? <==>
              0 <= now && job.state == Assigned && job.updatedAt <= now
              && workerId == job.workerId && attempt == job.attempt
    ensures var r := Start(job, workerId, attempt, now);
            r.Ok? ==> JobOk(r.value) && Advances(job, r.value, now) && r.value.state == Running
  {}

  lemma CompleteOk(job: Job, workerId: u32, attempt: u64, result: bytes, now: i64)
    requires JobOk(job)
    ensures Complete(job, workerId, attempt, result, now).Ok? <==>
              0 <= now && job.state == Running && job.updatedAt <= now
              && workerId == job.workerId && attempt == job.attempt && |result| <= MAX_RESULT_SIZE
    ensures var r := Complete(job, workerId, attempt, result, now);
            r.Ok? ==> JobOk(r.value) && Advances(job, r.value, now) && r.value.state == Done
  {}

  lemma FailOk(job: Job, workerId: u32, attempt: u64, failure: Failure, now: i64)
    requires JobOk(job)
    ensures Fail(job, workerId, attempt, failure, now).Ok? <==>
              failure != NoFailure && 0 <= now && IsActive(job) && job.updatedAt <= now
              && workerId == job.workerId && attempt == job.attempt
    ensures var r := Fail(job, workerId, attempt, failure, now);
            r.Ok? ==> JobOk(r.value) && Advances(job, r.value, now) && r.value.state == AfterFailure(job)
  {}

  /** `next` follows `job` by one accepted transition at time `now`. */
  predicate Advances(job: Job, next: Job, now: i64) {
    && next.id == job.id
    && next.taskType == job.taskType && next.arguments == job.arguments
    && next.maxRetries == job.maxRetries && next.createdAt == job.createdAt
    && next.updatedAt == now
    && CanTransition(job.state, next.state)
    && (job.state != Queued && next.state != Queued ==> next.workerId == job.workerId)
    && next.attempt == job.attempt + (if job.state == Queued then 1 else 0)
    && next.retryCount == job.retryCount + (if next.state == Queued then 1 else 0)
    && Rank(next) < Rank(job)
  }

  /** What is left of a job's budget: it falls with every accepted transition. */
  function Rank(job: Job): int {
    3 * (job.maxRetries - job.retryCount) +
    match job.state
    case Queued => 3
    case Assigned => 2
    case Running => 1
    case Done => 0
    case Failed => 0
  }
}
