/** The coordinator's event loop (src/coordinator/main.c) as a state machine.

    Sockets are events: bytes arrive, a connection ends, output drains.  Each event
    carries the clock readings and the storage script its handlers consume. */
module EventLoop {
  import opened Base
  import opened JobModel
  import opened Messages
  import opened SchedulerModel
  import opened RegistryModel
  import opened WriterModel
  import opened StoreModel
  import opened Protocol
  import opened Listings
  import opened Statistics

  const MAX_CLIENTS: nat := 64
  const IO_TIMEOUT: int := 5000

  datatype Phase = Reading | Writing

  /** A connection slot; a negative descriptor marks it free.  `input` holds the bytes
      received of the current frame. */
  datatype Client = Client(
    fd: int, phase: Phase, workerId: u32, jobClient: bool, input: bytes, expected: nat,
    output: bytes, sent: nat, lastProgress: i64)

  datatype Loop = Loop(clients: seq<Client>, store: Store, disk: Disk, killed: bool)

  /** The monotonic clock as the handlers of one event read it: for the store
      operation, when a reply is queued, and when a lost worker is recorded. */
  datatype Clock = Clock(op: i64, reply: i64, loss: i64)

  datatype Config = Config(heartbeatTimeout: i32, session: Session)

  predicate InService(loop: Loop) {
    !loop.killed && loop.store.fault == NoFault
  }

  /** One durable store operation. */
  function Perform(loop: Loop, op: Operation): (StoreResult, Loop) {
    var step := Execute(loop.store, loop.disk, op);
    (step.result, loop.(store := step.store, disk := step.disk, killed := step.result == Killed))
  }

  function WithClient(loop: Loop, i: nat, client: Client): Loop
    requires i < |loop.clients|
  {
    loop.(clients := loop.clients[i := client])
  }

  function Buried(registry: Registry, id: u32, fd: int): Registry {
    var dead := MarkDead(registry, id, fd);
    if dead.Ok? then dead.value else registry
  }

  /** `close_client`: a worker's lease is given up before the connection is. */
  function CloseClient(loop: Loop, i: nat, clock: Clock): (after: Loop)
    requires i < |loop.clients|
    ensures |after.clients| == |loop.clients|
  {
    var c := loop.clients[i];
    if c.workerId == 0 then WithClient(loop, i, c.(fd := -1))
    else
      var holds := ActiveSlot(loop.store.jobs.jobs, c.workerId) < |loop.store.jobs.jobs|;
      var lost := if holds && loop.store.fault == NoFault then Perform(loop, LoseWorkerOf(c.workerId, clock.loss)).1
          else loop;
      if lost.killed then lost
      else
        WithClient(lost.(store := lost.store.(workers := Buried(lost.store.workers, c.workerId, c.fd))),
                   i, c.(fd := -1, workerId := 0))
  }

  /** `reset_input`. */
  function ResetInput(client: Client): Client {
    client.(input := [], expected := WIRE_HEADER_SIZE, phase := Reading)
  }

  /** `queue_message`. */
  function QueueMessage(loop: Loop, i: nat, m: Message, clock: Clock): (after: Loop)
    requires i < |loop.clients|
    ensures |after.clients| == |loop.clients|
  {
    var wire := EncodeMessage(m, MAX_FRAME_SIZE);
    if wire.Err? || clock.reply < 0 then CloseClient(loop, i, clock)
    else
      var c := loop.clients[i];
      WithClient(loop, i, c.(output := wire.value, sent := 0, lastProgress := clock.reply, phase := Writing))
  }

  function AsJobClient(loop: Loop, i: nat): (after: Loop)
    requires i < |loop.clients|
    ensures |after.clients| == |loop.clients|
  {
    WithClient(loop, i, loop.clients[i].(jobClient := true))
  }

  function HandleRegister(loop: Loop, i: nat, clock: Clock): (after: Loop)
    requires i < |loop.clients|
    ensures |after.clients| == |loop.clients|
  {
    var c := loop.clients[i];
    if c.jobClient then CloseClient(loop, i, clock)
    else
      var id := loop.store.workers.nextWorkerId;
      var done := Perform(loop, RegisterWorker(c.fd, clock.op));
      if done.0 == Fatal || done.0 == Killed then done.1
      else if done.0 != StoreOk then CloseClient(done.1, i, clock)
      else QueueMessage(WithClient(done.1, i, c.(workerId := id)), i, WorkerRegisterAck(id), clock)
  }

  function HandleHeartbeat(loop: Loop, i: nat, id: u32, now: i64, clock: Clock): (after: Loop)
    requires i < |loop.clients|
    ensures |after.clients| == |loop.clients|
  {
    var c := loop.clients[i];
    if c.workerId == 0 || id != c.workerId then CloseClient(loop, i, clock)
    else
      var beat := RecordHeartbeat(loop.store.workers, id, c.fd, now);
      if beat.Err? then CloseClient(loop, i, clock)
      else WithClient(loop.(store := loop.store.(workers := beat.value)), i, ResetInput(c))
  }

  function HandleSubmit(loop: Loop, i: nat, submission: Submission, clock: Clock): (after: Loop)
    requires i < |loop.clients|
    ensures |after.clients| == |loop.clients|
  {
    if loop.clients[i].workerId != 0 then CloseClient(loop, i, clock)
    else
      var id := loop.store.jobs.nextJobId;
      var done := Perform(loop, SubmitJob(submission, clock.op));
      if done.0 == Fatal || done.0 == Killed then done.1
      else if done.0 != StoreOk then CloseClient(done.1, i, clock)
      else QueueMessage(AsJobClient(done.1, i), i, JobSubmitAck(id), clock)
  }

  function StatusReply(jobs: seq<Job>, id: u64): Message {
    var slot := FindSlot(jobs, id);
    if id == 0 || slot == |jobs| then JobStatusNotFound(id) else JobStatusResponse(StatusOf(jobs[slot]))
  }

  function HandleReport(loop: Loop, i: nat, report: Message, clock: Clock): (after: Loop)
    requires i < |loop.clients|
    ensures |after.clients| == |loop.clients|
  {
    var c := loop.clients[i];
    var done := Perform(loop, ReportJob(c.workerId, report, clock.op));
    if done.0 == Fatal || done.0 == Killed then done.1
    else if done.0 != StoreOk then CloseClient(done.1, i, clock)
    else WithClient(done.1, i, ResetInput(c))
  }

  /** `(uint32_t)heartbeat_timeout_ms`. */
  function TimeoutWord(timeout: i32): u32 {
    if timeout >= 0 then timeout else timeout + 0x1_0000_0000
  }

  /** `queue_listing`. */
  function HandleListing(loop: Loop, i: nat, request: Message, clock: Clock, config: Config): (after: Loop)
    requires i < |loop.clients|
    ensures |after.clients| == |loop.clients|
  {
    if clock.op < 0 then CloseClient(loop, i, clock)
    else
      var asked := AsJobClient(loop, i);
      var jobs := loop.store.jobs.jobs;
      if request.JobsRequest? then QueueMessage(asked, i, JobsResponse(JobListing(jobs)), clock)
      else
        var list := WorkerListing(jobs, loop.store.workers, clock.op);
        if list.None? then CloseClient(asked, i, clock)
        else QueueMessage(asked, i, WorkersResponse(TimeoutWord(config.heartbeatTimeout), list.value), clock)
  }

  function HandleStats(loop: Loop, i: nat, clock: Clock, config: Config): (after: Loop)
    requires i < |loop.clients|
    ensures |after.clients| == |loop.clients|
  {
    var asked := AsJobClient(loop, i);
    var stats := Snapshot(config.session, loop.store, clock.op, config.heartbeatTimeout);
    if stats.None? then CloseClient(asked, i, clock) else QueueMessage(asked, i, StatsResponse(stats.value), clock)
  }

  /** `handle_message`. */
  function HandleMessage(loop: Loop, i: nat, m: Message, now: i64, clock: Clock, config: Config): (after: Loop)
    requires i < |loop.clients|
    ensures |after.clients| == |loop.clients|
  {
    match m
    case Ping => QueueMessage(loop, i, Pong, clock)
    case WorkerRegister => HandleRegister(loop, i, clock)
    case Heartbeat(id) => HandleHeartbeat(loop, i, id, now, clock)
    case JobSubmit(submission) => HandleSubmit(loop, i, submission, clock)
    case JobStatusRequest(id) => QueueMessage(AsJobClient(loop, i), i, StatusReply(loop.store.jobs.jobs, id), clock)
    case StartedReport(_) => HandleReport(loop, i, m, clock)
    case CompletedReport(_, _) => HandleReport(loop, i, m, clock)
    case FailedReport(_, _) => HandleReport(loop, i, m, clock)
    case JobsRequest => HandleListing(loop, i, m, clock, config)
    case WorkersRequest => HandleListing(loop, i, m, clock, config)
    case StatsRequest => HandleStats(loop, i, clock, config)
    case _ => CloseClient(loop, i, clock)
  }

  // ---------- framing ----------

  /** The message types a connection may send, given its role. */
  predicate Allowed(code: nat, c: Client) {
    || code == 1
    || (code == 3 && !c.jobClient)
    || ((code == 6 || code == 12 || code == 15 || code == 17 || code == 19) && c.workerId == 0)
    || ((code == 5 || code == 9 || code == 10 || code == 11) && c.workerId != 0)
  }

  datatype Recv = Eof | RecvFailed | RecvWait | Data(chunk: bytes)

  /** What the bytes received so far amount to, once there are as many as expected. */
  datatype Frame = Broken | More(expected: nat) | Whole(message: Message)

  function FrameOf(c: Client): Frame {
    var header := DecodeFrameHeader(c.input);
    if |c.input| == WIRE_HEADER_SIZE && (header.Err? || !Allowed(header.value.code, c)) then Broken
    else
      var read := DecodeMessage(c.input);
      if read == Err(BufferTooSmall) then
        if header.Err? || header.value.length > MAX_FRAME_SIZE - WIRE_HEADER_SIZE then Broken
        else More(WIRE_HEADER_SIZE + header.value.length)
      else if read.Err? then Broken
      else Whole(read.value.message)
  }

  /** `read_message`. */
  function ReadMessage(loop: Loop, i: nat, recv: Recv, now: i64, clock: Clock, config: Config): (after: Loop)
    requires i < |loop.clients|
    ensures |after.clients| == |loop.clients|
  {
    match recv
    case Eof => CloseClient(loop, i, clock)
    case RecvFailed => CloseClient(loop, i, clock)
    case RecvWait => loop
    case Data(chunk) =>
      var c := loop.clients[i].(input := loop.clients[i].input + chunk, lastProgress := now);
      var got := WithClient(loop, i, c);
      if |c.input| < c.expected then got
      else
        match FrameOf(c)
        case Broken => CloseClient(got, i, clock)
        case More(expected) => WithClient(loop, i, c.(expected := expected))
        case Whole(m) => HandleMessage(got, i, m, now, clock, config)
  }

  datatype Send = SendFailed | SendWait | Sent(count: nat)

  /** `write_reply`. */
  function WriteReply(loop: Loop, i: nat, send: Send, now: i64, clock: Clock): (after: Loop)
    requires i < |loop.clients|
    ensures |after.clients| == |loop.clients|
  {
    match send
    case SendFailed => CloseClient(loop, i, clock)
    case SendWait => loop
    case Sent(n) =>
      if n == 0 then CloseClient(loop, i, clock)
      else
        var c := loop.clients[i].(sent := loop.clients[i].sent + n, lastProgress := now);
        WithClient(loop, i, if c.sent == |c.output| then ResetInput(c) else c)
  }

  // ---------- one client's turn, accepting, scheduling ----------

  /** What `poll` reported for a connection. */
  datatype Poll = Quiet | Invalid | Readable(recv: Recv) | Writable(send: Send)

  predicate HeartbeatMissed(registry: Registry, id: u32, now: i64, timeout: int) {
    var slot := WorkerSlot(registry.workers, id);
    id != 0 && slot < |registry.workers| && TimedOut(registry.workers[slot], now, timeout)
  }

  function Serve(loop: Loop, i: nat, poll: Poll, now: i64, clock: Clock, config: Config): (after: Loop)
    requires i < |loop.clients|
    ensures |after.clients| == |loop.clients|
  {
    var c := loop.clients[i];
    if c.phase == Reading && poll.Readable? then ReadMessage(loop, i, poll.recv, now, clock, config)
    else if c.phase == Writing && poll.Writable? then WriteReply(loop, i, poll.send, now, clock)
    else loop
  }

  /** The body of the loop over clients in `run_coordinator`: expire before reading,
      then serve, then enforce the I/O deadline. */
  function Turn(loop: Loop, i: nat, poll: Poll, now: i64, clock: Clock, config: Config): (after: Loop)
    requires i < |loop.clients|
    ensures |after.clients| == |loop.clients|
  {
    var c := loop.clients[i];
    if c.fd < 0 then loop
    else if HeartbeatMissed(loop.store.workers, c.workerId, now, config.heartbeatTimeout) then
      CloseClient(loop, i, clock)
    else if poll.Invalid? then CloseClient(loop, i, clock)
    else
      var served := Serve(loop, i, poll, now, clock, config);
      var d := served.clients[i];
      if !served.killed && d.fd >= 0 && (d.workerId == 0 || d.phase == Writing || d.input != [])
         && now - d.lastProgress >= IO_TIMEOUT then CloseClient(served, i, clock)
      else served
  }

  /** The first free slot, or the number of slots. */
  function FreeClient(clients: seq<Client>): (slot: nat)
    ensures slot <= |clients|
    ensures slot < |clients| ==> clients[slot].fd < 0
  {
    if clients == [] || clients[0].fd < 0 then 0 else 1 + FreeClient(clients[1..])
  }

  /** `accept_clients`, for one accepted connection. */
  function Accept(loop: Loop, fd: int, now: i64): (after: Loop)
    ensures |after.clients| == |loop.clients|
  {
    var slot := FreeClient(loop.clients);
    if slot == |loop.clients| then loop
    else WithClient(loop, slot, Client(fd, Reading, 0, false, [], WIRE_HEADER_SIZE, [], 0, now))
  }

  /** The guards of `schedule_jobs` for one client. */
  predicate ReadyForWork(loop: Loop, i: nat, now: i64, config: Config)
    requires i < |loop.clients|
  {
    var c := loop.clients[i];
    var workers := loop.store.workers.workers;
    var slot := WorkerSlot(workers, c.workerId);
    && c.fd >= 0 && c.workerId != 0 && slot < |workers|
    && workers[slot].state == Alive && workers[slot].fd == c.fd
    && !TimedOut(workers[slot], now, config.heartbeatTimeout)
    && c.phase == Reading && c.input == []
    && ActiveSlot(loop.store.jobs.jobs, c.workerId) == |loop.store.jobs.jobs|
  }

  /** One round of `schedule_jobs`. */
  function Schedule(loop: Loop, i: nat, now: i64, clock: Clock, config: Config): (after: Loop)
    requires i < |loop.clients|
    ensures |after.clients| == |loop.clients|
  {
    if loop.store.jobs.pending == [] || now < 0 || !ReadyForWork(loop, i, now, config) then loop
    else
      var head := loop.store.jobs.pending[0];
      var done := Perform(loop, AssignJob(loop.clients[i].workerId, now));
      if done.0 != StoreOk then done.1
      else
        var slot := FindSlot(done.1.store.jobs.jobs, head);
        if slot == |done.1.store.jobs.jobs| then done.1
        else QueueMessage(done.1, i, Assignment(done.1.store.jobs.jobs[slot]), clock)
  }

  datatype Event =
    | Accepted(fd: int, now: i64)
    | Polled(client: nat, poll: Poll, now: i64, clock: Clock, script: seq<Io>)
    | Scheduled(client: nat, now: i64, clock: Clock, script: seq<Io>)

  /** What the operating system guarantees: a new descriptor is not one that is still
      open, and a read delivers between one byte and what was asked for. */
  predicate Possible(loop: Loop, event: Event) {
    match event
    case Accepted(fd, _) => fd >= 0 && forall k :: 0 <= k < |loop.clients| ==> loop.clients[k].fd != fd
    case Polled(i, poll, _, _, _) =>
      i < |loop.clients| &&
      (poll.Readable? && poll.recv.Data? && loop.clients[i].phase == Reading ==>
         0 < |poll.recv.chunk| <= loop.clients[i].expected - |loop.clients[i].input|)
    case Scheduled(i, _, _, _) => i < |loop.clients|
  }

  /** The loop ends with the process or the first latched failure. */
  function React(loop: Loop, event: Event, config: Config): Loop {
    if !InService(loop) then loop
    else
      match event
      case Accepted(fd, now) => Accept(loop, fd, now)
      case Polled(i, poll, now, clock, script) =>
        if i >= |loop.clients| then loop
        else Turn(loop.(disk := Disk(loop.disk.file, script)), i, poll, now, clock, config)
      case Scheduled(i, now, clock, script) =>
        if i >= |loop.clients| then loop
        else Schedule(loop.(disk := Disk(loop.disk.file, script)), i, now, clock, config)
  }
}
