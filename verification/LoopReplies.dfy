/** What the event loop answers, in every run: statistics fail only through the clock,
    and no reply is ever refused by the encoder. */
module LoopReplies {
  import opened Base
  import opened JobModel
  import opened Messages
  import opened SchedulerModel
  import opened RegistryModel
  import opened WalFormat
  import opened WriterModel
  import opened HistoryModel
  import opened ReplayModel
  import opened StoreModel
  import opened StartupModel
  import opened Durability
  import opened Lifetime
  import opened Sessions
  import opened Promises
  import opened Bytes
  import opened Protocol
  import opened ProtocolCodec
  import opened Listings
  import opened Statistics
  import opened StatsCollectors
  import opened EventLoop
  import opened Leases
  import opened Framing
  import opened LoopSafety
  import opened LoopSessions
  import opened Tracing

  // ---------- counts only grow ----------

  predicate AllProgress(a: seq<Job>, b: seq<Job>) {
    |a| == |b| && forall i :: 0 <= i < |a| ==> Progresses(a[i], b[i])
  }

  lemma {:induction false} FinishedGrow(a: seq<Job>, b: seq<Job>, state: JobState)
    requires AllProgress(a, b) && (state == Done || state == Failed)
    ensures CountState(a, state) <= CountState(b, state)
    decreases |a|
  {
    if a != [] {
      var n := |a| - 1;
      assert Progresses(a[n], b[n]);
      FinishedGrow(a[..n], b[..n], state);
    }
  }

  lemma {:induction false} RetriesGrow(a: seq<Job>, b: seq<Job>)
    requires AllProgress(a, b)
    ensures SumRetries(a) <= SumRetries(b)
    decreases |a|
  {
    if a != [] {
      var n := |a| - 1;
      assert Progresses(a[n], b[n]);
      RetriesGrow(a[..n], b[..n]);
    }
  }

  lemma {:induction false} PrefixRetries(jobs: seq<Job>, i: nat)
    requires i <= |jobs|
    ensures SumRetries(jobs[..i]) <= SumRetries(jobs)
    decreases |jobs|
  {
    if i < |jobs| {
      PrefixRetries(jobs[..|jobs| - 1], i);
      assert jobs[..|jobs| - 1][..i] == jobs[..i];
    } else {
      assert jobs[..i] == jobs;
    }
  }

  /** Whatever has happened since a baseline was taken, none of its counts has fallen. */
  lemma BaselineHolds(a: seq<Job>, b: seq<Job>)
    requires StoreProgresses(a, b)
    ensures |a| <= |b| && SumRetries(a) <= SumRetries(b)
    ensures CountState(a, Done) <= CountState(b, Done) && CountState(a, Failed) <= CountState(b, Failed)
  {
    hide Progresses, CountState, SumRetries;
    var same := b[..|a|];
    assert AllProgress(a, same);
    FinishedGrow(a, same, Done);
    FinishedGrow(a, same, Failed);
    RetriesGrow(a, same);
    PrefixCount(b, |a|, Done);
    PrefixCount(b, |a|, Failed);
    PrefixRetries(b, |a|);
  }

  // ---------- the session begun at startup ----------

  /** Reconciliation counts each settled attempt once. */
  lemma {:induction false} ReconcileCounts(store: Store, disk: Disk, i: nat, now: i64)
    requires i <= |store.jobs.jobs| <= STORE_CAPACITY
    ensures var step := Reconcile(store, disk, i, now);
            && step.store.sessionStart == store.sessionStart
            && |step.store.jobs.jobs| == |store.jobs.jobs|
            && step.store.interrupted <= store.interrupted + |store.jobs.jobs| - i
    decreases STORE_CAPACITY - i
  {
    hide PlanLoss, Append;
    if i < |store.jobs.jobs| {
      if !IsActive(store.jobs.jobs[i]) {
        ReconcileCounts(store, disk, i + 1, now);
      } else {
        var worker := store.jobs.jobs[i].workerId;
        LossKeepsCount(store, worker, now);
        var step := Carry(store, disk, PlanLoss(store, worker, now));
        if step.result == StoreOk {
          ReconcileCounts(step.store.(interrupted := step.store.interrupted + 1), step.disk, i + 1, now);
        }
      }
    }
  }

  lemma LossKeepsCount(store: Store, workerId: u32, now: i64)
    ensures var plan := PlanLoss(store, workerId, now); plan.Commit? ==> |plan.jobs.jobs| == |store.jobs.jobs|
  {
    hide ActiveSlot, FindSlot, JobTime, ValidSnapshot;
  }

  lemma OpenedCounts(disk: Disk, now: i64, read: IoStatus)
    requires Replay(disk.file).Ok? && OpenExisting(disk, now, read).result == StoreOk
    ensures var store := OpenExisting(disk, now, read).store;
            store.Some? && 0 <= store.value.sessionStart && store.value.interrupted <= |store.value.jobs.jobs|
  {
    hide Replay, HistoryOk, Reconcile, Repair, EmptyRegistry;
    var h := Replay(disk.file).value.history;
    assert |h.scheduler.jobs| <= STORE_CAPACITY by { AcceptedCount(disk.file); }
    ReconcileCounts(Recovered(h, now), Repair(disk).1, 0, now);
  }

  lemma AcceptedCount(file: bytes)
    requires Replay(file).Ok?
    ensures |Replay(file).value.history.scheduler.jobs| <= STORE_CAPACITY
  {
    hide Replay, RecordsOf, Encodes, ApplyAll, TornTail;
    AcceptedFile(file);
  }

  /** The baseline of `faultline_stats_begin` can be taken after every startup, at any
      clock reading that has not gone back. */
  lemma SessionBegins(open: Opening, t: i64)
    requires Startup(open) && open.result == StoreOk && open.store.Some?
    ensures Begin(open.store.value, t).Some? <==> open.store.value.sessionStart <= t
    ensures 0 <= open.store.value.sessionStart
  {
    hide Replay, OpenExisting, CreateNew, CountState, SumRetries, Durable, EmptyRegistry, AllCountable, LoopOk;
    if disk: Disk, now, read :| Replay(disk.file).Ok? && open == OpenExisting(disk, now, read) {
      OpenedIsQuiet(disk, now, read);
      OpenedCounts(disk, now, read);
    } else {
      var script, now :| open == CreateNew(script, now);
      CreatedIsQuiet(script, now);
      CreatedClock(script, now);
    }
    CountableStore(open.store.value, open.disk.file);
  }

  lemma CreatedClock(script: seq<Io>, now: i64)
    requires CreateNew(script, now).result == StoreOk
    ensures var store := CreateNew(script, now).store;
            store.Some? && 0 <= store.value.sessionStart && store.value.interrupted == 0
  {
    hide WriteAll, Sync, FileHeader, EmptyRegistry;
  }

  lemma CountableStore(store: Store, file: bytes)
    requires Durable(store, file)
    ensures Collectable(store) && |store.workers.workers| == MAX_WORKERS
    ensures SchedulerOk(store.jobs) && RegistryOk(store.workers)
  {
    hide Durable, Countable, JobOk;
    DurableMirrors(store, file);
    HealthyJobsCountable(store.jobs.jobs);
  }

  /** A statistics reply fails only through the clock: with the baseline taken at
      startup, in every run and at every reading, a snapshot is available exactly if the
      timeout is positive, time has not gone back behind the baseline, and no live
      worker's heartbeat lies in the future. */
  lemma SnapshotAvailable(open: Opening, begun: i64, events: seq<Event>, config: Config, now: i64)
    requires Startup(open) && open.result == StoreOk
    requires open.store.Some? && AllPossible(StartLoop(open.store.value, open.disk.file), events, config)
    requires Begin(open.store.value, begun) == Some(config.session)
    requires InService(RunLoop(StartLoop(open.store.value, open.disk.file), events, config))
    ensures var store := RunLoop(StartLoop(open.store.value, open.disk.file), events, config).store;
            Snapshot(config.session, store, now, config.heartbeatTimeout).Some? <==>
              0 < config.heartbeatTimeout && config.session.readyAt <= now && ClocksOk(store.workers.workers, now)
  {
    hide Startup, RunLoop, AllPossible, StartLoop, Durable, CountState, SumRetries, StoreProgresses, RecoversExactly,
         AllCountable, ClocksOk, RegistryOk, SchedulerOk;
    ReachedIsOk(open, events, config);
    LoopLeavesItsLog(open, events, config);
    var loop := RunLoop(StartLoop(open.store.value, open.disk.file), events, config);
    CountableStore(loop.store, loop.disk.file);
    BaselineHolds(open.store.value.jobs.jobs, loop.store.jobs.jobs);
    SessionBegins(open, begun);
    SnapshotIff(config.session, loop.store, now, config.heartbeatTimeout);
  }

  lemma SnapshotIff(session: Session, store: Store, now: i64, timeout: i32)
    ensures Snapshot(session, store, now, timeout).Some? <==> Snapshottable(session, store, now, timeout)
  {}

  // ---------- every reply is valid ----------

  /** Every reply built from a store reached in service passes the wire validators: the
      status of each job, the job listing, the worker listing and the statistics. */
  lemma RepliesAreValid(open: Opening, begun: i64, events: seq<Event>, config: Config, now: i64, timeout: u32)
    requires Startup(open) && open.result == StoreOk && timeout != 0
    requires open.store.Some? && AllPossible(StartLoop(open.store.value, open.disk.file), events, config)
    requires Begin(open.store.value, begun) == Some(config.session)
    requires InService(RunLoop(StartLoop(open.store.value, open.disk.file), events, config))
    ensures var store := RunLoop(StartLoop(open.store.value, open.disk.file), events, config).store;
            var jobs := store.jobs.jobs;
            && (forall i :: 0 <= i < |jobs| ==>
              Validate(JobStatusResponse(StatusOf(jobs[i])), |jobs[i].result|) == None)
            && ValidateJobs(JobListing(jobs)) == None
            && (WorkerListing(jobs, store.workers, now).Some? ==>
                  ValidateWorkers(timeout, WorkerListing(jobs, store.workers, now).value) == None)
            && (Snapshot(config.session, store, now, config.heartbeatTimeout).Some? ==>
                  StatsValid(Snapshot(config.session, store, now, config.heartbeatTimeout).value))
  {
    hide Startup, RunLoop, AllPossible, StartLoop, RegistryOk, JobListing, WorkerListing, Snapshot, Begin, SessionOk,
         Validate, ValidateJobs, ValidateWorkers, StatsValid, StatusOf, Durable;
    ReachedIsOk(open, events, config);
    var loop := RunLoop(StartLoop(open.store.value, open.disk.file), events, config);
    BeginOk(open.store.value, begun);
    StoreReplies(loop.store, loop.disk.file, config.session, now, timeout, config.heartbeatTimeout);
  }

  lemma StoreReplies(store: Store, file: bytes, session: Session, now: i64, word: u32, timeout: i32)
    requires Durable(store, file) && SessionOk(session)
    ensures forall i :: 0 <= i < |store.jobs.jobs| ==>
              Validate(JobStatusResponse(StatusOf(store.jobs.jobs[i])), |store.jobs.jobs[i].result|) == None
    ensures ValidateJobs(JobListing(store.jobs.jobs)) == None
    ensures word != 0 && WorkerListing(store.jobs.jobs, store.workers, now).Some? ==>
              ValidateWorkers(word, WorkerListing(store.jobs.jobs, store.workers, now).value) == None
    ensures Snapshot(session, store, now, timeout).Some? ==> StatsValid(Snapshot(session, store, now, timeout).value)
  {
    hide Durable, RegistryOk, JobListing, WorkerListing, Snapshot, Validate, ValidateJobs, ValidateWorkers,
         StatsValid, StatusOf, JobOk;
    DurableMirrors(store, file);
    forall i | 0 <= i < |store.jobs.jobs|
      ensures Validate(JobStatusResponse(StatusOf(store.jobs.jobs[i])), |store.jobs.jobs[i].result|) == None
    {
      StatusReplyIsValid(store.jobs.jobs[i]);
    }
    JobListingIsValid(store.jobs);
    if word != 0 && WorkerListing(store.jobs.jobs, store.workers, now).Some? {
      WorkerListingIsValid(store.jobs, store.workers, now, word);
    }
    if Snapshot(session, store, now, timeout).Some? {
      SnapshotIsValid(session, store, now, timeout);
    }
  }

  // ---------- every reply encodes ----------

  /** A call of `queue_message`: the loop it is made on, and the message. */
  datatype Answer = Answer(loop: Loop, message: Message)

  /** The reply a message leads to, if it leads to one. */
  function AnswerTo(loop: Loop, i: nat, m: Message, clock: Clock, config: Config): (answer: Option<Answer>)
    requires i < |loop.clients|
    ensures answer.Some? ==> i < |answer.value.loop.clients|
  {
    var c, asked := loop.clients[i], AsJobClient(loop, i);
    match m
    case Ping => Some(Answer(loop, Pong))
    case WorkerRegister =>
      var id := loop.store.workers.nextWorkerId;
      var done := Perform(loop, RegisterWorker(c.fd, clock.op));
      if c.jobClient || done.0 != StoreOk then None
      else Some(Answer(WithClient(done.1, i, c.(workerId := id)), WorkerRegisterAck(id)))
    case JobSubmit(submission) =>
      var done := Perform(loop, SubmitJob(submission, clock.op));
      if c.workerId != 0 || done.0 != StoreOk then None
      else Some(Answer(AsJobClient(done.1, i), JobSubmitAck(loop.store.jobs.nextJobId)))
    case JobStatusRequest(id) => Some(Answer(asked, StatusReply(loop.store.jobs.jobs, id)))
    case JobsRequest =>
      if clock.op < 0 then None else Some(Answer(asked, JobsResponse(JobListing(loop.store.jobs.jobs))))
    case WorkersRequest =>
      var list := WorkerListing(loop.store.jobs.jobs, loop.store.workers, clock.op);
      if clock.op < 0 || list.None? then None
      else Some(Answer(asked, WorkersResponse(TimeoutWord(config.heartbeatTimeout), list.value)))
    case StatsRequest =>
      var stats := Snapshot(config.session, loop.store, clock.op, config.heartbeatTimeout);
      if stats.None? then None else Some(Answer(asked, StatsResponse(stats.value)))
    case _ => None
  }

  /** What becomes of a message that leads to no reply: the connection is closed, waits
      for its next frame, or the loop has ended.  Nothing is queued here. */
  function Unanswered(loop: Loop, i: nat, m: Message, now: i64, clock: Clock): (after: Loop)
    requires i < |loop.clients|
  {
    var c := loop.clients[i];
    match m
    case WorkerRegister =>
      if c.jobClient then CloseClient(loop, i, clock)
      else CloseUnlessEnded(Perform(loop, RegisterWorker(c.fd, clock.op)), i, clock)
    case JobSubmit(submission) =>
      if c.workerId != 0 then CloseClient(loop, i, clock)
      else CloseUnlessEnded(Perform(loop, SubmitJob(submission, clock.op)), i, clock)
    case Heartbeat(id) => HandleHeartbeat(loop, i, id, now, clock)
    case StartedReport(_) => HandleReport(loop, i, m, clock)
    case CompletedReport(_, _) => HandleReport(loop, i, m, clock)
    case FailedReport(_, _) => HandleReport(loop, i, m, clock)
    case WorkersRequest => CloseClient(if clock.op < 0 then loop else AsJobClient(loop, i), i, clock)
    case StatsRequest => CloseClient(AsJobClient(loop, i), i, clock)
    case _ => CloseClient(loop, i, clock)
  }

  /** After a store operation that did not succeed. */
  function CloseUnlessEnded(done: (StoreResult, Loop), i: nat, clock: Clock): Loop
    requires i < |done.1.clients|
  {
    if done.0 == Fatal || done.0 == Killed then done.1 else CloseClient(done.1, i, clock)
  }

  /** `queue_message` is called exactly for these replies; without one, nothing is even
      attempted. */
  lemma AnswerIsQueued(loop: Loop, i: nat, m: Message, now: i64, clock: Clock, config: Config)
    requires i < |loop.clients|
    ensures var after := HandleMessage(loop, i, m, now, clock, config);
            match AnswerTo(loop, i, m, clock, config)
            case Some(answer) => after == QueueMessage(answer.loop, i, answer.message, clock)
            case None => after == Unanswered(loop, i, m, now, clock)
  {
    hide QueueMessage, CloseClient, Execute, StatusReply, JobListing, WorkerListing, Snapshot, HandleHeartbeat,
         HandleReport;
  }

  /** The assignment a scheduling round sends, if it sends one. */
  function AnswerOnSchedule(loop: Loop, i: nat, now: i64, config: Config): (answer: Option<Answer>)
    requires i < |loop.clients|
    ensures answer.Some? ==> i < |answer.value.loop.clients|
  {
    if loop.store.jobs.pending == [] || now < 0 || !ReadyForWork(loop, i, now, config) then None
    else
      var done := Perform(loop, AssignJob(loop.clients[i].workerId, now));
      var slot := FindSlot(done.1.store.jobs.jobs, loop.store.jobs.pending[0]);
      if done.0 != StoreOk || slot == |done.1.store.jobs.jobs| then None
      else Some(Answer(done.1, Assignment(done.1.store.jobs.jobs[slot])))
  }

  /** A scheduling round that sends nothing: its guards fail, or the assignment did. */
  function UnansweredSchedule(loop: Loop, i: nat, now: i64, config: Config): Loop
    requires i < |loop.clients|
  {
    if loop.store.jobs.pending == [] || now < 0 || !ReadyForWork(loop, i, now, config) then loop
    else Perform(loop, AssignJob(loop.clients[i].workerId, now)).1
  }

  lemma ScheduledIsQueued(loop: Loop, i: nat, now: i64, clock: Clock, config: Config)
    requires i < |loop.clients|
    ensures var after := Schedule(loop, i, now, clock, config);
            match AnswerOnSchedule(loop, i, now, config)
            case Some(answer) => after == QueueMessage(answer.loop, i, answer.message, clock)
            case None => after == UnansweredSchedule(loop, i, now, config)
  {
    hide QueueMessage, Execute, ReadyForWork, FindSlot;
  }

  /** `queue_message` for a message that encodes: only the clock can still end the
      connection. */
  function Send(loop: Loop, i: nat, m: Message, clock: Clock): Loop
    requires i < |loop.clients| && Encodable(m)
  {
    if clock.reply < 0 then CloseClient(loop, i, clock)
    else
      var wire := EncodeMessage(m, MAX_FRAME_SIZE).value;
      WithClient(loop, i, loop.clients[i].(output := wire, sent := 0, lastProgress := clock.reply, phase := Writing))
  }

  lemma EncodableIsSent(loop: Loop, i: nat, m: Message, clock: Clock)
    requires i < |loop.clients| && Encodable(m)
    ensures QueueMessage(loop, i, m, clock) == Send(loop, i, m, clock)
  {
    hide EncodeMessage, CloseClient;
  }

  /** What passes the validator fits the buffer. */
  lemma ValidReplyEncodes(m: Message)
    requires Validate(m, |Body(m)|) == None
    ensures Encodable(m)
  {
    hide Validate, Values, Body, Code, Minimum, Extra, PutFields, PrefixLayout, FrameHeader;
    HeaderInBounds(m);
  }

  lemma ListingFitsBuffer(m: Message)
    requires ValidateFields(m, |Body(m)|) == None && (m.JobsResponse? || m.WorkersResponse?)
    ensures Validate(m, |Body(m)|) == None
  {
    hide ValidateJobsFrom, ValidateWorkersFrom, LayoutSize, PutRows, JobRowLayout, WorkerRowLayout, JobRows, WorkerRows;
    RowSizes();
  }

  lemma AcksEncode(workerId: u32, jobId: u64)
    ensures Encodable(Pong)
    ensures workerId != 0 ==> Encodable(WorkerRegisterAck(workerId))
    ensures jobId != 0 ==> Encodable(JobSubmitAck(jobId)) && Encodable(JobStatusNotFound(jobId))
  {
    hide EncodeMessage;
    ValidReplyEncodes(Pong);
    if workerId != 0 {
      ValidReplyEncodes(WorkerRegisterAck(workerId));
    }
    if jobId != 0 {
      ValidReplyEncodes(JobSubmitAck(jobId));
      ValidReplyEncodes(JobStatusNotFound(jobId));
    }
  }

  /** IDs that were issued are not zero. */
  lemma IssuedIds(loop: Loop, fd: int, submission: Submission, now: i64)
    ensures Perform(loop, RegisterWorker(fd, now)).0 == StoreOk ==> loop.store.workers.nextWorkerId != 0
    ensures Perform(loop, SubmitJob(submission, now)).0 == StoreOk ==> loop.store.jobs.nextJobId != 0
  {
    hide FreeSlot, Init, Push, FindSlot, JobTime, Append;
  }

  lemma StatusEncodes(store: Store, file: bytes, session: Session, id: u64)
    requires Durable(store, file) && SessionOk(session) && id != 0
    ensures Encodable(StatusReply(store.jobs.jobs, id))
  {
    hide Durable, Encodable, Validate, StatusOf, FindSlot, ValidateJobs, ValidateWorkers, JobListing, WorkerListing,
         Snapshot, StatsValid;
    AcksEncode(0, id);
    var jobs, slot := store.jobs.jobs, FindSlot(store.jobs.jobs, id);
    if slot < |jobs| {
      StoreReplies(store, file, session, 0, 0, 0);
      assert Body(JobStatusResponse(StatusOf(jobs[slot]))) == jobs[slot].result by { StatusBody(jobs[slot]); }
      ValidReplyEncodes(JobStatusResponse(StatusOf(jobs[slot])));
    }
  }

  lemma StatusBody(job: Job)
    ensures Body(JobStatusResponse(StatusOf(job))) == job.result
  {}

  lemma ListingsEncode(store: Store, file: bytes, session: Session, now: i64, timeout: i32)
    requires Durable(store, file) && SessionOk(session) && timeout > 0
    ensures Encodable(JobsResponse(JobListing(store.jobs.jobs)))
    ensures var list := WorkerListing(store.jobs.jobs, store.workers, now);
            list.Some? ==> Encodable(WorkersResponse(TimeoutWord(timeout), list.value))
    ensures var stats := Snapshot(session, store, now, timeout); stats.Some? ==> Encodable(StatsResponse(stats.value))
  {
    hide Durable, Encodable, StatusOf, ValidateJobs, ValidateWorkers, JobListing, WorkerListing, Snapshot, StatsValid,
         Body;
    StoreReplies(store, file, session, now, TimeoutWord(timeout), timeout);
    var jobs := JobsResponse(JobListing(store.jobs.jobs));
    ListingFitsBuffer(jobs);
    ValidReplyEncodes(jobs);
    var list := WorkerListing(store.jobs.jobs, store.workers, now);
    if list.Some? {
      ListingFitsBuffer(WorkersResponse(TimeoutWord(timeout), list.value));
      ValidReplyEncodes(WorkersResponse(TimeoutWord(timeout), list.value));
    }
    var stats := Snapshot(session, store, now, timeout);
    if stats.Some? {
      assert Body(StatsResponse(stats.value)) == [] by { StatsBody(stats.value); }
      ValidReplyEncodes(StatsResponse(stats.value));
    }
  }

  lemma StatsBody(stats: Stats)
    ensures Body(StatsResponse(stats)) == []
  {}

  lemma AnswersEncode(loop: Loop, i: nat, m: Message, clock: Clock, config: Config)
    requires InService(loop) && Durable(loop.store, loop.disk.file) && i < |loop.clients|
    requires Encodable(m) && SessionOk(config.session) && config.heartbeatTimeout > 0
    ensures var answer := AnswerTo(loop, i, m, clock, config); answer.Some? ==> Encodable(answer.value.message)
  {
    hide Durable, Encodable, Perform, StatusReply, JobListing, WorkerListing, Snapshot, TimeoutWord, InService;
    var c := loop.clients[i];
    AcksEncode(loop.store.workers.nextWorkerId, loop.store.jobs.nextJobId);
    ListingsEncode(loop.store, loop.disk.file, config.session, clock.op, config.heartbeatTimeout);
    match m {
      case WorkerRegister => IssuedIds(loop, c.fd, Submission(0, 0, []), clock.op);
      case JobSubmit(submission) => IssuedIds(loop, c.fd, submission, clock.op);
      case JobStatusRequest(id) =>
        RequestNamesJob(id);
        StatusEncodes(loop.store, loop.disk.file, config.session, id);
      case _ =>
    }
  }

  lemma RequestNamesJob(id: u64)
    requires Encodable(JobStatusRequest(id))
    ensures id != 0
  {}

  /** After a successful assignment the job that headed the queue is the one that was
      dispatched, in its place and active. */
  lemma HeadIsDispatched(store: Store, disk: Disk, workerId: u32, now: i64)
    requires store.jobs.pending != [] && Execute(store, disk, AssignJob(workerId, now)).result == StoreOk
    ensures JobTime(store, now).Some? && Dispatch(store.jobs, workerId, JobTime(store, now).value).Ok?
    ensures var jobs := Execute(store, disk, AssignJob(workerId, now)).store.jobs.jobs;
            var slot := FindSlot(jobs, store.jobs.pending[0]);
            var job := Dispatch(store.jobs, workerId, JobTime(store, now).value).value.job;
            slot < |jobs| && jobs[slot] == job && IsActive(job)
  {
    hide Append, JobTime, FindSlot, ActiveSlot, Assign, IsAlive;
    var time := JobTime(store, now).value;
    var change := Dispatch(store.jobs, workerId, time).value;
    var slot := FindSlot(store.jobs.jobs, store.jobs.pending[0]);
    AssignedIs(store.jobs.jobs[slot], workerId, time);
    SlotAfterReplace(store.jobs.jobs, slot, change.job);
  }

  lemma AssignedIs(job: Job, workerId: u32, now: i64)
    ensures Assign(job, workerId, now).Ok? ==>
              Assign(job, workerId, now).value.id == job.id && IsActive(Assign(job, workerId, now).value)
  {}

  lemma AssignmentEncodes(job: Job)
    requires JobOk(job) && IsActive(job)
    ensures Encodable(Assignment(job))
  {
    hide Encodable;
    ValidReplyEncodes(Assignment(job));
  }

  lemma ScheduledEncodes(loop: Loop, i: nat, now: i64, config: Config)
    requires InService(loop) && Sane(loop) && i < |loop.clients|
    ensures var answer := AnswerOnSchedule(loop, i, now, config); answer.Some? ==> Encodable(answer.value.message)
  {
    hide Durable, LeasesAlive, Bindings, Encodable, Execute, ReadyForWork, FindSlot, JobOk, RegistryOk;
    var op := AssignJob(loop.clients[i].workerId, now);
    if AnswerOnSchedule(loop, i, now, config).Some? {
      ExecuteOutcome(loop.store, loop.disk, op);
      var step := Execute(loop.store, loop.disk, op);
      DurableMirrors(step.store, step.disk.file);
      HeadIsDispatched(loop.store, loop.disk, loop.clients[i].workerId, now);
      AssignmentEncodes(step.store.jobs.jobs[FindSlot(step.store.jobs.jobs, loop.store.jobs.pending[0])]);
    }
  }

  /** No reply is refused by the encoder, in every run.  A message that an event hands to
      `handle_message` leads to a reply that encodes within the client's buffer and is
      sent, or to no reply at all; and so does a scheduling round.  Hence no client is
      ever closed for an encoding error. */
  lemma RepliesEncode(open: Opening, begun: i64, events: seq<Event>, event: Event, i: nat, config: Config)
    requires Startup(open) && open.result == StoreOk
    requires open.store.Some? && AllPossible(StartLoop(open.store.value, open.disk.file), events, config)
    requires Begin(open.store.value, begun) == Some(config.session) && config.heartbeatTimeout > 0
    requires var loop := RunLoop(StartLoop(open.store.value, open.disk.file), events, config);
             InService(loop) && Possible(loop, event) && i < |loop.clients|
    ensures var loop := RunLoop(StartLoop(open.store.value, open.disk.file), events, config);
            && (Handed(loop, event, i, config).Some? ==>
                  MessageAnswered(loop, event, i, config, Handed(loop, event, i, config).value))
            && (event.Scheduled? ==> ScheduleAnswered(Fed(loop, event), i, event.now, event.clock, config))
  {
    hide Startup, RunLoop, AllPossible, StartLoop, LoopOk, MessageAnswered, ScheduleAnswered, Begin, SessionOk;
    ReachedIsOk(open, events, config);
    BeginOk(open.store.value, begun);
    var loop := RunLoop(StartLoop(open.store.value, open.disk.file), events, config);
    if Handed(loop, event, i, config).Some? {
      HandedIsAnswered(loop, event, i, config);
    }
    if event.Scheduled? {
      NewScript(loop, event.script);
      ScheduleIsAnswered(Fed(loop, event), i, event.now, event.clock, config);
    }
  }

  /** The event that hands on `m` sends its reply, or does what is due without one. */
  ghost predicate MessageAnswered(loop: Loop, event: Event, i: nat, config: Config, m: Message)
    requires ReadsOn(loop, event, i, config)
  {
    var got := WithClient(Fed(loop, event), i, Filled(loop, event, i, config));
    var served := Serve(Fed(loop, event), i, event.poll, event.now, event.clock, config);
    match AnswerTo(got, i, m, event.clock, config)
    case Some(answer) => Encodable(answer.message) && served == Send(answer.loop, i, answer.message, event.clock)
    case None => served == Unanswered(got, i, m, event.now, event.clock)
  }

  ghost predicate ScheduleAnswered(loop: Loop, i: nat, now: i64, clock: Clock, config: Config)
    requires i < |loop.clients|
  {
    var after := Schedule(loop, i, now, clock, config);
    match AnswerOnSchedule(loop, i, now, config)
    case Some(answer) => Encodable(answer.message) && after == Send(answer.loop, i, answer.message, clock)
    case None => after == UnansweredSchedule(loop, i, now, config)
  }

  lemma HandedIsAnswered(loop: Loop, event: Event, i: nat, config: Config)
    requires LoopOk(loop) && Possible(loop, event) && Handed(loop, event, i, config).Some?
    requires SessionOk(config.session) && config.heartbeatTimeout > 0
    ensures MessageAnswered(loop, event, i, config, Handed(loop, event, i, config).value)
  {
    hide LoopOk, Possible, Encodable, AnswerTo, Unanswered, Send, QueueMessage, HandleMessage, Serve, FrameOf,
         SessionOk, CloseClient;
    var m := Handed(loop, event, i, config).value;
    var got := WithClient(Fed(loop, event), i, Filled(loop, event, i, config));
    HandedEncodes(loop, event, i, config);
    OkIsDurable(loop);
    AnswersEncode(got, i, m, event.clock, config);
    HandedIsHandled(loop, event, i, config);
    AnswerIsQueued(got, i, m, event.now, event.clock, config);
    var answer := AnswerTo(got, i, m, event.clock, config);
    if answer.Some? {
      EncodableIsSent(answer.value.loop, i, answer.value.message, event.clock);
    }
  }

  lemma ScheduleIsAnswered(loop: Loop, i: nat, now: i64, clock: Clock, config: Config)
    requires LoopOk(loop) && InService(loop) && i < |loop.clients|
    ensures ScheduleAnswered(loop, i, now, clock, config)
  {
    hide LoopOk, Encodable, AnswerOnSchedule, UnansweredSchedule, Send, QueueMessage, Schedule;
    OkIsSane(loop);
    ScheduledEncodes(loop, i, now, config);
    ScheduledIsQueued(loop, i, now, clock, config);
    var answer := AnswerOnSchedule(loop, i, now, config);
    if answer.Some? {
      EncodableIsSent(answer.value.loop, i, answer.value.message, clock);
    }
  }

  lemma OkIsDurable(loop: Loop)
    requires LoopOk(loop) && InService(loop)
    ensures Durable(loop.store, loop.disk.file)
  {}

  lemma OkIsSane(loop: Loop)
    requires LoopOk(loop) && InService(loop)
    ensures Sane(loop)
  {}

  /** A message handed on is one the peer could have encoded. */
  lemma HandedEncodes(loop: Loop, event: Event, i: nat, config: Config)
    requires LoopOk(loop) && Possible(loop, event) && Handed(loop, event, i, config).Some?
    ensures Encodable(Handed(loop, event, i, config).value)
  {
    hide Sane, DecodeMessage, DecodeFrameHeader, EncodeMessage, HeartbeatMissed, Code, Allowed;
    var c := Filled(loop, event, i, config);
    MessageCanonical(c.input, DecodeMessage(c.input).value);
  }

  // ---------- an acknowledgement is a promise ----------

  /** A job whose acknowledgement the loop sends is never lost: whatever events follow,
      and wherever the process is killed, the log it leaves holds the job as submitted. */
  lemma AckIsKept(open: Opening, events: seq<Event>, event: Event, i: nat, submission: Submission,
                  more: seq<Event>, config: Config)
    requires Startup(open) && open.result == StoreOk && open.store.Some?
    requires var loop := RunLoop(StartLoop(open.store.value, open.disk.file), events, config);
             && Handed(loop, event, i, config) == Some(JobSubmit(submission))
             && AnswerTo(WithBytes(loop, event, i, config), i, JobSubmit(submission), event.clock, config).Some?
    ensures var loop := RunLoop(StartLoop(open.store.value, open.disk.file), events, config);
            var got := WithBytes(loop, event, i, config);
            var answer := AnswerTo(got, i, JobSubmit(submission), event.clock, config).value;
            var later := RunLoop(React(loop, event, config), more, config);
            && answer.message == JobSubmitAck(loop.store.jobs.nextJobId)
            && Replay(later.disk.file).Ok?
            && HoldsJob(Replay(later.disk.file).value.history.scheduler.jobs, loop.store.jobs.nextJobId, submission)
  {
    hide Startup, RunLoop, StartLoop, Moves, WorldOk, Perform, React, Replay, HoldsJob, StoreProgresses, FrameOf,
         HeartbeatMissed;
    var loop := RunLoop(StartLoop(open.store.value, open.disk.file), events, config);
    ReachedWorldOk(open, events, config);
    var got := WithBytes(loop, event, i, config);
    var done := Perform(got, SubmitJob(submission, event.clock.op)).1;
    AckMoves(loop, event, i, submission, config);
    LoopIsSession(React(loop, event, config), more, config);
    var later := RunLoop(React(loop, event, config), more, config);
    MovesOn(done, React(loop, event, config), later);
    SubmittedWorld(loop, event, i, submission, config);
    MovesGrow(done, later);
    HeldStays(Replay(done.disk.file).value.history.scheduler.jobs, Replay(later.disk.file).value.history.scheduler.jobs,
              loop.store.jobs.nextJobId, submission);
  }

  /** The loop with the bytes of this event in the client's buffer. */
  function WithBytes(loop: Loop, event: Event, i: nat, config: Config): (got: Loop)
    requires Handed(loop, event, i, config).Some?
    ensures i < |got.clients|
  {
    WithClient(Fed(loop, event), i, Filled(loop, event, i, config))
  }

  lemma ReachedWorldOk(open: Opening, events: seq<Event>, config: Config)
    requires Startup(open) && open.result == StoreOk && open.store.Some?
    ensures WorldOk(WorldOf(RunLoop(StartLoop(open.store.value, open.disk.file), events, config)))
  {
    hide Startup, RunLoop, StartLoop, Moves, WorldOk, StoreProgresses;
    var start := StartLoop(open.store.value, open.disk.file);
    StartIsOk(open);
    LoopIsSession(start, events, config);
    MovesKeepOk(start, RunLoop(start, events, config));
  }

  /** After the submission, the rest of the event reaches the store only as sessions do. */
  lemma AckMoves(loop: Loop, event: Event, i: nat, submission: Submission, config: Config)
    requires Handed(loop, event, i, config) == Some(JobSubmit(submission))
    requires AnswerTo(WithBytes(loop, event, i, config), i, JobSubmit(submission), event.clock, config).Some?
    ensures var got := WithBytes(loop, event, i, config);
            Moves(Perform(got, SubmitJob(submission, event.clock.op)).1, React(loop, event, config))
  {
    hide Moves, Execute, QueueMessage, CloseClient, HandleMessage, Serve, FrameOf, HeartbeatMissed;
    var got := WithBytes(loop, event, i, config);
    var answer := AnswerTo(got, i, JobSubmit(submission), event.clock, config).value;
    var done := Perform(got, SubmitJob(submission, event.clock.op)).1;
    var served := Serve(Fed(loop, event), i, event.poll, event.now, event.clock, config);
    HandedIsHandled(loop, event, i, config);
    AnswerIsQueued(got, i, JobSubmit(submission), event.now, event.clock, config);
    MovesInPlace(done, answer.loop);
    QueueMoves(answer.loop, i, answer.message, event.clock);
    MovesOn(done, answer.loop, served);
    if !served.killed {
      CloseMoves(served, i, event.clock);
      MovesOn(done, served, CloseClient(served, i, event.clock));
    }
  }

  /** The submission is in the log of the world it leads to. */
  lemma SubmittedWorld(loop: Loop, event: Event, i: nat, submission: Submission, config: Config)
    requires WorldOk(WorldOf(loop)) && Handed(loop, event, i, config) == Some(JobSubmit(submission))
    requires AnswerTo(WithBytes(loop, event, i, config), i, JobSubmit(submission), event.clock, config).Some?
    ensures var done := Perform(WithBytes(loop, event, i, config), SubmitJob(submission, event.clock.op)).1;
            && WorldOk(WorldOf(done)) && Replay(done.disk.file).Ok?
            && HoldsJob(Replay(done.disk.file).value.history.scheduler.jobs, loop.store.jobs.nextJobId, submission)
  {
    hide WorldOk, Execute, HoldsJob, Replay, FrameOf, HeartbeatMissed;
    var got := WithBytes(loop, event, i, config);
    assert WorldOf(got) == WorldOf(loop);
    SubmissionIsFresh(WorldOf(got), submission, event.clock.op, event.script);
  }

  lemma MovesGrow(a: Loop, b: Loop)
    requires Moves(a, b) && WorldOk(WorldOf(a))
    ensures FileGrows(a.disk.file, b.disk.file)
  {
    hide WorldOk, Run, FileGrows;
    var actions :| Run(WorldOf(a), actions) == WorldOf(b);
    RunGrows(WorldOf(a), actions);
  }
}
