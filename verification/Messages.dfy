/** The messages of the wire protocol as host values (include/protocol.h).

    A C message is a tagged union; each tag is a constructor here, so the members
    that a tag leaves unused do not exist. */
module Messages {
  import opened Base

  datatype Identity = Identity(jobId: u64, workerId: u32, attempt: u64)

  datatype Submission = Submission(taskType: u16, maxRetries: u32, arguments: bytes)

  datatype JobStatus = JobStatus(
    jobId: u64, state: u16, workerId: u32, attempt: u64, retryCount: u32, maxRetries: u32,
    failure: u16, result: bytes)

  datatype JobSummary = JobSummary(
    jobId: u64, taskType: u16, state: u16, workerId: u32, attempt: u64, retryCount: u32,
    maxRetries: u32, failure: u16, resultSize: u32)

  datatype WorkerSummary = WorkerSummary(
    workerId: u32, state: u16, heartbeatAge: u64, jobId: u64, attempt: u64)

  datatype Stats = Stats(
    submitted: u64, queued: u64, leased: u64, running: u64, completed: u64, failed: u64,
    attempts: u64, retries: u64, latencyAverage: u64,
    workersRetained: u64, workersAlive: u64, workersExpired: u64, workersDead: u64,
    workersBusy: u64, workersIdle: u64,
    uptime: u64, sessionSubmitted: u64, sessionCompleted: u64, sessionFailed: u64, sessionRetries: u64,
    recovered: u64, interrupted: u64, startupDuration: u64, heartbeatTimeout: u64)

  datatype Message =
    | Ping
    | Pong
    | WorkerRegister
    | WorkerRegisterAck(workerId: u32)
    | Heartbeat(workerId: u32)
    | JobSubmit(submission: Submission)
    | JobSubmitAck(jobId: u64)
    | JobAssign(identity: Identity, taskType: u16, arguments: bytes)
    | StartedReport(identity: Identity)
    | CompletedReport(identity: Identity, result: bytes)
    | FailedReport(identity: Identity, failure: u16)
    | JobStatusRequest(jobId: u64)
    | JobStatusResponse(status: JobStatus)
    | JobStatusNotFound(jobId: u64)
    | JobsRequest
    | JobsResponse(jobs: seq<JobSummary>)
    | WorkersRequest
    | WorkersResponse(heartbeatTimeout: u32, workers: seq<WorkerSummary>)
    | StatsRequest
    | StatsResponse(stats: Stats)
}
