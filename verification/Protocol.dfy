/** The wire protocol codec (src/common/protocol.c).

    A frame is a 12-byte header and a payload: a fixed prefix of big-endian fields,
    then argument or result bytes, or the rows of a listing. */
module Protocol {
  import opened Base
  import opened Bytes
  import opened Messages

  const PROTOCOL_MAGIC: nat := 0x464c494e
  const PROTOCOL_VERSION: nat := 1
  const WIRE_HEADER_SIZE: nat := 12
  const MAX_PAYLOAD_SIZE: nat := 1048576
  const MAX_DATA_SIZE: nat := 1024
  const MAX_JOB_ENTRIES: nat := 256
  const MAX_WORKER_ENTRIES: nat := 64
  const JOB_ROW_SIZE: nat := 38
  const WORKER_ROW_SIZE: nat := 30
  /** FAULTLINE_MESSAGE_MAX_FRAME_SIZE, also the capacity of a client's buffers. */
  const MAX_FRAME_SIZE: nat := 9744

  datatype WireError =
    | BufferTooSmall | BadMagic | UnsupportedVersion | UnknownMessageType | PayloadTooLarge
    | InvalidPayloadLength | InvalidWorkerId | InvalidJobId | InvalidAttempt | InvalidTaskType
    | InvalidFailure | InvalidJobState | InvalidRetryCount | InvalidListCount | InvalidListOrder
    | InvalidWorkerState | InvalidHeartbeatTimeout | InvalidStats

  // ---------- message types ----------

  /** The type tag on the wire. */
  function Code(m: Message): u16 {
    match m
    case Ping => 1
    case Pong => 2
    case WorkerRegister => 3
    case WorkerRegisterAck(_) => 4
    case Heartbeat(_) => 5
    case JobSubmit(_) => 6
    case JobSubmitAck(_) => 7
    case JobAssign(_, _, _) => 8
    case StartedReport(_) => 9
    case CompletedReport(_, _) => 10
    case FailedReport(_, _) => 11
    case JobStatusRequest(_) => 12
    case JobStatusResponse(_) => 13
    case JobStatusNotFound(_) => 14
    case JobsRequest => 15
    case JobsResponse(_) => 16
    case WorkersRequest => 17
    case WorkersResponse(_, _) => 18
    case StatsRequest => 19
    case StatsResponse(_) => 20
  }

  predicate Known(code: nat) {
    1 <= code <= 20
  }

  predicate IsListing(code: nat) {
    code == 16 || code == 18
  }

  /** The fixed part of the payload. */
  function PrefixLayout(code: nat): Layout {
    if code == 4 || code == 5 then [W4]
    else if code == 6 then [W2, W4, W4]
    else if code == 7 || code == 12 || code == 14 then [W8]
    else if code == 8 then [W8, W4, W8, W2, W4]
    else if code == 9 then [W8, W4, W8]
    else if code == 10 then [W8, W4, W8, W4]
    else if code == 11 then [W8, W4, W8, W2]
    else if code == 13 then [W8, W2, W4, W8, W4, W4, W2, W4]
    else if code == 16 then [W4]
    else if code == 18 then [W4, W4]
    else if code == 20 then StatsLayout()
    else []
  }

  function StatsLayout(): Layout { seq(24, _ => W8) }

  /** `message_payload_bounds`: the smallest payload of a type. */
  function Minimum(code: nat): nat {
    if code == 4 || code == 5 then 4
    else if code == 6 then 10
    else if code == 7 || code == 12 || code == 14 then 8
    else if code == 8 then 26
    else if code == 9 then 20
    else if code == 10 then 24
    else if code == 11 then 22
    else if code == 13 then 36
    else if code == 16 then 4
    else if code == 18 then 8
    else if code == 20 then 192
    else 0
  }

  /** ... and how much longer it may be. */
  function Extra(code: nat): nat {
    if code == 6 || code == 8 || code == 10 || code == 13 then MAX_DATA_SIZE
    else if code == 16 then MAX_JOB_ENTRIES * JOB_ROW_SIZE
    else if code == 18 then MAX_WORKER_ENTRIES * WORKER_ROW_SIZE
    else 0
  }

  lemma {:induction false} UniformOffset(layout: Layout, k: nat)
    requires k <= |layout| && forall i :: 0 <= i < |layout| ==> layout[i] == W8
    ensures Offset(layout, k) == 8 * k
  {
    if k != 0 {
      UniformOffset(layout, k - 1);
    }
  }

  lemma ShortLayoutSize(layout: Layout)
    requires |layout| <= 5
    ensures LayoutSize(layout) ==
      (if |layout| > 0 then layout[0].Size() else 0) + (if |layout| > 1 then layout[1].Size() else 0)
      + (if |layout| > 2 then layout[2].Size() else 0) + (if |layout| > 3 then layout[3].Size() else 0)
      + (if |layout| > 4 then layout[4].Size() else 0)
  {
    assert |layout| > 0 ==> Offset(layout, 1) == layout[0].Size();
    assert |layout| > 1 ==> Offset(layout, 2) == Offset(layout, 1) + layout[1].Size();
    assert |layout| > 2 ==> Offset(layout, 3) == Offset(layout, 2) + layout[2].Size();
    assert |layout| > 3 ==> Offset(layout, 4) == Offset(layout, 3) + layout[3].Size();
    assert |layout| > 4 ==> Offset(layout, 5) == Offset(layout, 4) + layout[4].Size();
  }

  lemma StatusLayoutSize()
    ensures LayoutSize(PrefixLayout(13)) == 36
  {
    var layout := PrefixLayout(13);
    assert Offset(layout, 2) == 10;
    assert Offset(layout, 4) == 22;
    assert Offset(layout, 6) == 30;
  }

  lemma PrefixSize(code: nat)
    ensures LayoutSize(PrefixLayout(code)) == Minimum(code)
  {
    if code == 20 {
      UniformOffset(StatsLayout(), 24);
    } else if code == 13 {
      StatusLayoutSize();
    } else {
      ShortLayoutSize(PrefixLayout(code));
    }
  }

  // ---------- messages as fields, data and rows ----------

  function StatsValues(s: Stats): (values: seq<nat>)
    ensures |values| == 24
  {
    [s.submitted, s.queued, s.leased, s.running, s.completed, s.failed, s.attempts, s.retries,
     s.latencyAverage, s.workersRetained, s.workersAlive, s.workersExpired, s.workersDead, s.workersBusy,
     s.workersIdle, s.uptime, s.sessionSubmitted, s.sessionCompleted, s.sessionFailed, s.sessionRetries,
     s.recovered, s.interrupted, s.startupDuration, s.heartbeatTimeout]
  }

  predicate AllU64(values: seq<nat>) {
    forall i :: 0 <= i < |values| ==> values[i] < 0x1_0000_0000_0000_0000
  }

  function StatsOf(v: seq<nat>): Stats
    requires |v| == 24 && AllU64(v)
  {
    Stats(v[0], v[1], v[2], v[3], v[4], v[5], v[6], v[7], v[8], v[9], v[10], v[11], v[12], v[13], v[14],
          v[15], v[16], v[17], v[18], v[19], v[20], v[21], v[22], v[23])
  }

  /** The fixed fields of a message, the data size included. */
  function Values(m: Message): (values: seq<nat>) {
    match m
    case WorkerRegisterAck(id) => [id]
    case Heartbeat(id) => [id]
    case JobSubmit(s) => [s.taskType, s.maxRetries, |s.arguments|]
    case JobSubmitAck(id) => [id]
    case JobAssign(i, task, arguments) => [i.jobId, i.workerId, i.attempt, task, |arguments|]
    case StartedReport(i) => [i.jobId, i.workerId, i.attempt]
    case CompletedReport(i, result) => [i.jobId, i.workerId, i.attempt, |result|]
    case FailedReport(i, failure) => [i.jobId, i.workerId, i.attempt, failure]
    case JobStatusRequest(id) => [id]
    case JobStatusResponse(s) =>
      [s.jobId, s.state, s.workerId, s.attempt, s.retryCount, s.maxRetries, s.failure, |s.result|]
    case JobStatusNotFound(id) => [id]
    case JobsResponse(jobs) => [|jobs|]
    case WorkersResponse(timeout, workers) => [|workers|, timeout]
    case StatsResponse(s) => StatsValues(s)
    case _ => []
  }

  function JobRowLayout(): Layout { [W8, W2, W2, W4, W8, W4, W4, W2, W4] }

  function WorkerRowLayout(): Layout { [W4, W2, W8, W8, W8] }

  lemma RowSizes()
    ensures LayoutSize(JobRowLayout()) == JOB_ROW_SIZE && LayoutSize(WorkerRowLayout()) == WORKER_ROW_SIZE
  {
    assert Offset(JobRowLayout(), 2) == 10;
    assert Offset(JobRowLayout(), 4) == 16;
    assert Offset(JobRowLayout(), 6) == 28;
    assert Offset(JobRowLayout(), 8) == 34;
    ShortLayoutSize(WorkerRowLayout());
  }

  function JobRow(e: JobSummary): (row: seq<nat>)
    ensures |row| == 9 && Fits(JobRowLayout(), row)
  {
    [e.jobId, e.taskType, e.state, e.workerId, e.attempt, e.retryCount, e.maxRetries, e.failure, e.resultSize]
  }

  function JobOfRow(row: seq<nat>): JobSummary
    requires Fits(JobRowLayout(), row)
  {
    assert JobRowLayout()[0] == JobRowLayout()[4] == W8;
    JobSummary(row[0], row[1], row[2], row[3], row[4], row[5], row[6], row[7], row[8])
  }

  function WorkerRow(e: WorkerSummary): (row: seq<nat>)
    ensures |row| == 5 && Fits(WorkerRowLayout(), row)
  {
    [e.workerId, e.state, e.heartbeatAge, e.jobId, e.attempt]
  }

  function WorkerOfRow(row: seq<nat>): WorkerSummary
    requires Fits(WorkerRowLayout(), row)
  {
    WorkerSummary(row[0], row[1], row[2], row[3], row[4])
  }

  function JobRows(jobs: seq<JobSummary>): (rows: seq<seq<nat>>)
    ensures |rows| == |jobs| && RowsFit(JobRowLayout(), rows)
    ensures forall i :: 0 <= i < |jobs| ==> rows[i] == JobRow(jobs[i])
  {
    seq(|jobs|, i requires 0 <= i < |jobs| => JobRow(jobs[i]))
  }

  function JobsOfRows(rows: seq<seq<nat>>): (jobs: seq<JobSummary>)
    requires RowsFit(JobRowLayout(), rows)
    ensures |jobs| == |rows| && forall i :: 0 <= i < |rows| ==> jobs[i] == JobOfRow(rows[i])
  {
    seq(|rows|, i requires 0 <= i < |rows| => JobOfRow(rows[i]))
  }

  function WorkerRows(workers: seq<WorkerSummary>): (rows: seq<seq<nat>>)
    ensures |rows| == |workers| && RowsFit(WorkerRowLayout(), rows)
    ensures forall i :: 0 <= i < |workers| ==> rows[i] == WorkerRow(workers[i])
  {
    seq(|workers|, i requires 0 <= i < |workers| => WorkerRow(workers[i]))
  }

  function WorkersOfRows(rows: seq<seq<nat>>): (workers: seq<WorkerSummary>)
    requires RowsFit(WorkerRowLayout(), rows)
    ensures |workers| == |rows| && forall i :: 0 <= i < |rows| ==> workers[i] == WorkerOfRow(rows[i])
  {
    seq(|rows|, i requires 0 <= i < |rows| => WorkerOfRow(rows[i]))
  }

  /** What follows the fixed fields. */
  function Body(m: Message): bytes {
    match m
    case JobSubmit(s) => s.arguments
    case JobAssign(_, _, arguments) => arguments
    case CompletedReport(_, result) => result
    case JobStatusResponse(s) => s.result
    case JobsResponse(jobs) => PutRows(JobRowLayout(), JobRows(jobs))
    case WorkersResponse(_, workers) => PutRows(WorkerRowLayout(), WorkerRows(workers))
    case _ => []
  }

  /** The size of the data the fixed fields announce. */
  function Announced(code: nat, v: seq<nat>): nat
    requires Fits(PrefixLayout(code), v)
  {
    if code == 6 then v[2]
    else if code == 8 then v[4]
    else if code == 10 then v[3]
    else if code == 13 then v[7]
    else if code == 16 then v[0] * JOB_ROW_SIZE
    else if code == 18 then v[0] * WORKER_ROW_SIZE
    else 0
  }

  /** The message with these fixed fields and this data. */
  function Rebuild(code: nat, v: seq<nat>, data: bytes): Message
    requires Known(code) && !IsListing(code) && Fits(PrefixLayout(code), v)
  {
    if code == 1 then Ping
    else if code == 2 then Pong
    else if code == 3 then WorkerRegister
    else if code == 4 then WorkerRegisterAck(v[0])
    else if code == 5 then Heartbeat(v[0])
    else if code == 6 then JobSubmit(Submission(v[0], v[1], data))
    else if code == 7 then JobSubmitAck(v[0])
    else if code == 8 then JobAssign(Identity(v[0], v[1], v[2]), v[3], data)
    else if code == 9 then StartedReport(Identity(v[0], v[1], v[2]))
    else if code == 10 then CompletedReport(Identity(v[0], v[1], v[2]), data)
    else if code == 11 then FailedReport(Identity(v[0], v[1], v[2]), v[3])
    else if code == 12 then JobStatusRequest(v[0])
    else if code == 13 then JobStatusResponse(JobStatus(v[0], v[1], v[2], v[3], v[4], v[5], v[6], data))
    else if code == 14 then JobStatusNotFound(v[0])
    else if code == 15 then JobsRequest
    else if code == 17 then WorkersRequest
    else if code == 19 then StatsRequest
    else
      assert AllU64(v);
      StatsResponse(StatsOf(v))
  }

  /** The listing with these fixed fields and these rows. */
  function RebuildListing(code: nat, v: seq<nat>, body: bytes): Message
    requires IsListing(code) && Fits(PrefixLayout(code), v) && |body| == Announced(code, v)
  {
    RowSizes();
    if code == 16 then JobsResponse(JobsOfRows(GetRows(JobRowLayout(), body, v[0])))
    else WorkersResponse(v[1], WorkersOfRows(GetRows(WorkerRowLayout(), body, v[0])))
  }

  // ---------- validation ----------

  predicate ValidTask(task: u16) {
    1 <= task <= 4
  }

  /** `validate_identity`; `None` stands for FAULTLINE_PROTOCOL_OK here and below. */
  function ValidateIdentity(i: Identity): Option<WireError> {
    if i.jobId == 0 then Some(InvalidJobId)
    else if i.workerId == 0 then Some(InvalidWorkerId)
    else if i.attempt == 0 then Some(InvalidAttempt)
    else None
  }

  /** `validate_job_status` for a result of `size` bytes. */
  function ValidateStatus(s: JobStatus, size: nat): Option<WireError> {
    var queued := s.state == 1;
    if s.jobId == 0 then Some(InvalidJobId)
    else if s.state < 1 || s.state > 5 then Some(InvalidJobState)
    else if s.retryCount > s.maxRetries || (s.state == 5 && s.retryCount != s.maxRetries) then Some(InvalidRetryCount)
    else if queued != (s.workerId == 0) then Some(InvalidWorkerId)
    else if s.attempt != s.retryCount + (if queued then 0 else 1) then Some(InvalidAttempt)
    else if (if s.state == 5 || (queued && s.attempt != 0) then s.failure != 1 && s.failure != 2
             else s.failure != 0) then
      Some(InvalidFailure)
    else if s.state != 4 && size != 0 then Some(InvalidPayloadLength)
    else None
  }

  function StatusOfSummary(e: JobSummary): JobStatus {
    JobStatus(e.jobId, e.state, e.workerId, e.attempt, e.retryCount, e.maxRetries, e.failure, [])
  }

  /** One round of the loop in `validate_jobs`. */
  function ValidateJobEntry(jobs: seq<JobSummary>, i: nat): Option<WireError>
    requires i < |jobs|
  {
    var status := ValidateStatus(StatusOfSummary(jobs[i]), jobs[i].resultSize);
    if status.Some? then status
    else if !ValidTask(jobs[i].taskType) then Some(InvalidTaskType)
    else if jobs[i].resultSize > MAX_DATA_SIZE then Some(PayloadTooLarge)
    else if i != 0 && jobs[i].jobId <= jobs[i - 1].jobId then Some(InvalidListOrder)
    else None
  }

  function ValidateJobsFrom(jobs: seq<JobSummary>, i: nat): Option<WireError>
    requires i <= |jobs|
    decreases |jobs| - i
  {
    if i == |jobs| then None
    else
      var entry := ValidateJobEntry(jobs, i);
      if entry.Some? then entry else ValidateJobsFrom(jobs, i + 1)
  }

  function ValidateJobs(jobs: seq<JobSummary>): Option<WireError> {
    if |jobs| > MAX_JOB_ENTRIES then Some(InvalidListCount) else ValidateJobsFrom(jobs, 0)
  }

  /** One round of the loop in `validate_workers`. */
  function ValidateWorkerEntry(workers: seq<WorkerSummary>, i: nat): Option<WireError>
    requires i < |workers|
  {
    var e := workers[i];
    if e.workerId == 0 then Some(InvalidWorkerId)
    else if e.state != 1 && e.state != 2 then Some(InvalidWorkerState)
    else if (e.jobId == 0) != (e.attempt == 0) then Some(InvalidAttempt)
    else if e.state == 2 && e.jobId != 0 then Some(InvalidJobId)
    else if i != 0 && e.workerId <= workers[i - 1].workerId then Some(InvalidListOrder)
    else None
  }

  function ValidateWorkersFrom(workers: seq<WorkerSummary>, i: nat): Option<WireError>
    requires i <= |workers|
    decreases |workers| - i
  {
    if i == |workers| then None
    else
      var entry := ValidateWorkerEntry(workers, i);
      if entry.Some? then entry else ValidateWorkersFrom(workers, i + 1)
  }

  function ValidateWorkers(timeout: u32, workers: seq<WorkerSummary>): Option<WireError> {
    if |workers| > MAX_WORKER_ENTRIES then Some(InvalidListCount)
    else if timeout == 0 then Some(InvalidHeartbeatTimeout)
    else ValidateWorkersFrom(workers, 0)
  }

  /** `validate_stats`. */
  predicate StatsValid(s: Stats) {
    && s.submitted <= MAX_JOB_ENTRIES
    && s.queued <= s.submitted && s.leased <= s.submitted && s.running <= s.submitted
    && s.completed <= s.submitted && s.failed <= s.submitted
    && s.retries <= s.submitted * U32_MAX
    && s.workersRetained <= MAX_WORKER_ENTRIES
    && s.workersAlive <= s.workersRetained && s.workersExpired <= s.workersRetained
    && s.workersDead <= s.workersRetained && s.workersBusy <= s.workersAlive && s.workersIdle <= s.workersAlive
    && s.queued + s.leased + s.running + s.completed + s.failed == s.submitted
    && s.attempts == s.retries + s.submitted - s.queued
    && s.workersAlive + s.workersExpired + s.workersDead == s.workersRetained
    && s.workersBusy + s.workersIdle == s.workersAlive
    && s.workersBusy <= s.leased + s.running
    && s.recovered <= s.submitted && s.interrupted <= s.recovered
    && s.sessionSubmitted == s.submitted - s.recovered
    && s.sessionCompleted <= s.completed && s.sessionFailed <= s.failed && s.sessionRetries <= s.retries
    && s.latencyAverage <= I64_MAX && (s.completed == 0 ==> s.latencyAverage == 0)
    && s.uptime <= I64_MAX && s.startupDuration <= I64_MAX
    && 0 < s.heartbeatTimeout <= 0x7FFF_FFFF
  }

  /** The checks of `validate_message` on the fields of each type. */
  function ValidateFields(m: Message, size: nat): Option<WireError> {
    match m
    case WorkerRegisterAck(id) => if id == 0 then Some(InvalidWorkerId) else None
    case Heartbeat(id) => if id == 0 then Some(InvalidWorkerId) else None
    case JobSubmit(s) => if !ValidTask(s.taskType) then Some(InvalidTaskType) else None
    case JobSubmitAck(id) => if id == 0 then Some(InvalidJobId) else None
    case JobAssign(i, task, _) => if !ValidTask(task) then Some(InvalidTaskType) else ValidateIdentity(i)
    case StartedReport(i) => ValidateIdentity(i)
    case CompletedReport(i, _) => ValidateIdentity(i)
    case FailedReport(i, failure) => if failure != 1 then Some(InvalidFailure) else ValidateIdentity(i)
    case JobStatusRequest(id) => if id == 0 then Some(InvalidJobId) else None
    case JobStatusResponse(s) => ValidateStatus(s, size)
    case JobStatusNotFound(id) => if id == 0 then Some(InvalidJobId) else None
    case JobsResponse(jobs) => ValidateJobs(jobs)
    case WorkersResponse(timeout, workers) => ValidateWorkers(timeout, workers)
    case StatsResponse(s) => if StatsValid(s) then None else Some(InvalidStats)
    case _ => None
  }

  /** `validate_message` for a message whose data takes `size` bytes. */
  function Validate(m: Message, size: nat): Option<WireError> {
    var fields := ValidateFields(m, size);
    if fields.Some? then fields else if size > Extra(Code(m)) then Some(PayloadTooLarge) else None
  }

  // ---------- frames ----------

  function FrameLayout(): Layout { [W4, W2, W2, W4] }

  lemma FrameLayoutSize()
    ensures LayoutSize(FrameLayout()) == WIRE_HEADER_SIZE
  {
    ShortLayoutSize(FrameLayout());
  }

  datatype WireHeader = WireHeader(code: nat, length: nat)

  function FrameHeader(h: WireHeader): (wire: bytes)
    ensures |wire| == WIRE_HEADER_SIZE
  {
    FrameLayoutSize();
    PutFields(FrameLayout(), [PROTOCOL_MAGIC, PROTOCOL_VERSION, h.code, h.length])
  }

  /** `faultline_header_decode`. */
  function DecodeFrameHeader(wire: bytes): Result<WireHeader, WireError> {
    if |wire| < WIRE_HEADER_SIZE then Err(BufferTooSmall)
    else
      FrameLayoutSize();
      var v := GetFields(FrameLayout(), wire);
      if v[0] != PROTOCOL_MAGIC then Err(BadMagic)
      else if v[1] != PROTOCOL_VERSION then Err(UnsupportedVersion)
      else if !Known(v[2]) then Err(UnknownMessageType)
      else if v[3] > MAX_PAYLOAD_SIZE then Err(PayloadTooLarge)
      else Ok(WireHeader(v[2], v[3]))
  }

  lemma ValuesShape(m: Message)
    ensures |Values(m)| == |PrefixLayout(Code(m))|
  {}

  /** `faultline_message_encode` into a buffer of `capacity` bytes. */
  function EncodeMessage(m: Message, capacity: nat): Result<bytes, WireError> {
    var code := Code(m);
    var size := |Body(m)|;
    var invalid := Validate(m, size);
    if invalid.Some? then Err(invalid.value)
    else if capacity < WIRE_HEADER_SIZE + Minimum(code) + size then Err(BufferTooSmall)
    else
      ValuesShape(m);
      Ok(FrameHeader(WireHeader(code, Minimum(code) + size)) + PutFields(PrefixLayout(code), Values(m)) + Body(m))
  }

  datatype Received = Received(message: Message, consumed: nat)

  /** The decoder once the whole prefix is there. */
  function DecodePayload(h: WireHeader, payload: bytes): Result<Received, WireError>
    requires Known(h.code) && |payload| >= Minimum(h.code)
    requires Minimum(h.code) <= h.length <= Minimum(h.code) + Extra(h.code)
  {
    PrefixSize(h.code);
    var minimum := Minimum(h.code);
    var v := GetFields(PrefixLayout(h.code), payload);
    var size := Announced(h.code, v);
    if IsListing(h.code) then
      if v[0] > (if h.code == 16 then MAX_JOB_ENTRIES else MAX_WORKER_ENTRIES) then Err(InvalidListCount)
      else if h.length != minimum + size then Err(InvalidPayloadLength)
      else if h.code == 18 && v[1] == 0 then Err(InvalidHeartbeatTimeout)
      else if |payload| < h.length then Err(BufferTooSmall)
      else
        var m := RebuildListing(h.code, v, payload[minimum..h.length]);
        var invalid := Validate(m, size);
        if invalid.Some? then Err(invalid.value) else Ok(Received(m, WIRE_HEADER_SIZE + h.length))
    else
      var invalid := Validate(Rebuild(h.code, v, []), size);
      if invalid.Some? then Err(invalid.value)
      else if h.length != minimum + size then Err(InvalidPayloadLength)
      else if |payload| < h.length then Err(BufferTooSmall)
      else Ok(Received(Rebuild(h.code, v, payload[minimum..h.length]), WIRE_HEADER_SIZE + h.length))
  }

  /** `faultline_message_decode`. */
  function DecodeMessage(wire: bytes): Result<Received, WireError> {
    var header := DecodeFrameHeader(wire);
    if header.Err? then Err(header.error)
    else
      var h := header.value;
      if h.length < Minimum(h.code) || (Extra(h.code) == 0 && h.length != Minimum(h.code)) then
        Err(InvalidPayloadLength)
      else if h.length > Minimum(h.code) + Extra(h.code) then Err(PayloadTooLarge)
      else if |wire| < WIRE_HEADER_SIZE + Minimum(h.code) then Err(BufferTooSmall)
      else DecodePayload(h, wire[WIRE_HEADER_SIZE..])
  }
}
