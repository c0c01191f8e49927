/** The event handlers that src/coordinator/main.c runs on its array of clients and its
    store, in place.  A killed process stops where it is. */
module Coordinators {
  import opened Base
  import opened JobModel
  import opened Messages
  import opened SchedulerModel
  import opened RegistryModel
  import opened WriterModel
  import opened StoreModel
  import opened Protocol
  import opened Listings
  import opened Statistics
  import opened EventLoop
  import opened LoopSafety
  import opened JobStores
  import opened WorkerRegistries
  import opened LogWriters
  import opened CoordinatorStores
  import opened StatsCollectors
  import opened ListingLoops
  import opened StartupModel
  import opened ReplayModel
  import opened Durability
  import opened Sessions
  import opened LoopSessions
  import opened LoopReplies

  class Coordinator {
    const clients: array<Client>
    const store: CoordinatorStore
    const config: Config
    var killed: bool

    ghost function Repr(): set<object> {
      {this, clients, store, store.jobs, store.jobs.jobs, store.jobs.pending, store.jobs.pending.ids,
       store.scratch, store.scratch.jobs, store.scratch.pending, store.scratch.pending.ids,
       store.workers, store.workers.workers, store.wal, store.wal.storage}
    }

    ghost predicate Valid()
      reads this, clients, store, store.jobs, store.jobs.jobs, store.jobs.pending, store.jobs.pending.ids,
            store.scratch, store.scratch.jobs, store.scratch.pending, store.scratch.pending.ids,
            store.workers, store.workers.workers, store.wal
    {
      store.Valid() && clients.Length == MAX_CLIENTS
    }

    ghost function Value(): (loop: Loop)
      requires Valid()
      reads this, clients, store, store.jobs, store.jobs.jobs, store.jobs.pending, store.jobs.pending.ids,
            store.scratch, store.scratch.jobs, store.scratch.pending, store.scratch.pending.ids,
            store.workers, store.workers.workers, store.wal, store.wal.storage
      ensures |loop.clients| == MAX_CLIENTS
    {
      Loop(clients[..], store.Value(), store.Disk(), killed)
    }

    /** The start of `run_coordinator`: every slot is free. */
    constructor (store: CoordinatorStore, config: Config)
      requires store.Valid()
      ensures Valid() && this.store == store && this.config == config && fresh(clients) && !killed
      ensures store.Disk().script == [] ==> Value() == StartLoop(store.Value(), store.Disk().file)
    {
      this.store := store;
      this.config := config;
      clients := new Client[MAX_CLIENTS](_ => Client(-1, Reading, 0, false, [], 0, [], 0, 0));
      killed := false;
      new;
      assert clients[..] == StartLoop(store.Value(), store.Disk().file).clients;
    }

    // ---------- store operations, seen from the loop ----------

    method Lose(workerId: u32, now: i64)
      requires Valid() && !killed
      modifies Repr()
      ensures Valid() && Value() == Perform(old(Value()), LoseWorkerOf(workerId, now)).1
    {
      hide CoordinatorStore.Valid, CoordinatorStore.Value, Execute;
      var result := store.WorkerLost(workerId, now);
      killed := result == Killed;
    }

    method Register(fd: int, now: i64) returns (result: StoreResult, id: u32)
      requires Valid() && !killed
      modifies Repr()
      ensures Valid() && (result, Value()) == Perform(old(Value()), RegisterWorker(fd, now))
      ensures result == StoreOk ==> id == old(Value()).store.workers.nextWorkerId
    {
      hide CoordinatorStore.Valid, CoordinatorStore.Value, Execute;
      result, id := store.Register(fd, now);
      killed := result == Killed;
    }

    method Submit(submission: Submission, now: i64) returns (result: StoreResult, id: u64)
      requires Valid() && !killed
      modifies Repr()
      ensures Valid() && (result, Value()) == Perform(old(Value()), SubmitJob(submission, now))
      ensures result == StoreOk ==> id == old(Value()).store.jobs.nextJobId
    {
      hide CoordinatorStore.Valid, CoordinatorStore.Value, Execute;
      result, id := store.Submit(submission, now);
      killed := result == Killed;
    }

    method Assign(workerId: u32, now: i64) returns (result: StoreResult, assignment: Option<Message>)
      requires Valid() && !killed
      modifies Repr()
      ensures Valid() && (result, Value()) == Perform(old(Value()), AssignJob(workerId, now))
      ensures result == StoreOk ==> Dispatched(old(Value()).store, workerId, now, assignment)
    {
      hide CoordinatorStore.Valid, CoordinatorStore.Value, Execute, Dispatched;
      result, assignment := store.Assign(workerId, now);
      killed := result == Killed;
    }

    method Report(workerId: u32, report: Message, now: i64) returns (result: StoreResult)
      requires Valid() && !killed
      modifies Repr()
      ensures Valid() && (result, Value()) == Perform(old(Value()), ReportJob(workerId, report, now))
    {
      hide CoordinatorStore.Valid, CoordinatorStore.Value, Execute;
      result := store.Report(workerId, report, now);
      killed := result == Killed;
    }

    method Beat(id: u32, fd: int, now: i64) returns (ok: bool)
      requires Valid()
      modifies store.workers.Repr()
      ensures Valid()
      ensures var beat := RecordHeartbeat(old(Value()).store.workers, id, fd, now);
              && ok == beat.Ok?
              && Value() == (if ok then old(Value()).(store := old(Value()).store.(workers := beat.value))
                             else old(Value()))
    {
      hide CoordinatorStore.Valid, CoordinatorStore.Value, RecordHeartbeat;
      ok := store.Heartbeat(id, fd, now);
    }

    method Bury(id: u32, fd: int)
      requires Valid()
      modifies store.workers.Repr()
      ensures Valid()
      ensures var loop := old(Value());
              Value() == loop.(store := loop.store.(workers := Buried(loop.store.workers, id, fd)))
    {
      hide CoordinatorStore.Valid, CoordinatorStore.Value, RegistryModel.MarkDead;
      store.Bury(id, fd);
    }

    method SetClient(i: nat, c: Client)
      requires Valid() && i < MAX_CLIENTS
      modifies clients
      ensures Valid() && Value() == WithClient(old(Value()), i, c)
    {
      hide CoordinatorStore.Valid, CoordinatorStore.Value;
      clients[i] := c;
    }

    // ---------- the handlers ----------

    /** `close_client`: the lease is settled first, then the worker is detached, and only
        then is the slot free. */
    method CloseClient(i: nat, clock: Clock)
      requires Valid() && !killed && i < MAX_CLIENTS
      modifies Repr()
      ensures Valid() && Value() == EventLoop.CloseClient(old(Value()), i, clock)
    {
      hide CoordinatorStore.Valid, CoordinatorStore.Value, Perform, ActiveSlot, Buried;
      var c := clients[i];
      if c.workerId != 0 {
        var holds := store.Holds(c.workerId);
        if holds && store.fault == NoFault {
          Lose(c.workerId, clock.loss);
          if killed {
            return;
          }
        }
        Bury(c.workerId, c.fd);
      }
      SetClient(i, c.(fd := -1, workerId := 0));
    }

    /** `reset_input`. */
    method ResetInput(i: nat)
      requires Valid() && i < MAX_CLIENTS
      modifies clients
      ensures Valid() && Value() == WithClient(old(Value()), i, EventLoop.ResetInput(old(Value()).clients[i]))
    {
      hide CoordinatorStore.Valid, CoordinatorStore.Value;
      clients[i] := clients[i].(input := []);
      clients[i] := clients[i].(expected := WIRE_HEADER_SIZE);
      clients[i] := clients[i].(phase := Reading);
      assert clients[..] == old(clients[..])[i := EventLoop.ResetInput(old(clients[i]))];
    }

    /** `queue_message`. */
    method QueueMessage(i: nat, m: Message, clock: Clock)
      requires Valid() && !killed && i < MAX_CLIENTS
      modifies Repr()
      ensures Valid() && Value() == EventLoop.QueueMessage(old(Value()), i, m, clock)
    {
      hide CoordinatorStore.Valid, CoordinatorStore.Value, EventLoop.CloseClient, EncodeMessage;
      var wire := EncodeMessage(m, MAX_FRAME_SIZE);
      if wire.Err? || clock.reply < 0 {
        CloseClient(i, clock);
        return;
      }
      SetClient(i, clients[i].(output := wire.value, sent := 0, lastProgress := clock.reply, phase := Writing));
    }

    method HandleRegister(i: nat, clock: Clock)
      requires Valid() && !killed && i < MAX_CLIENTS
      modifies Repr()
      ensures Valid() && Value() == EventLoop.HandleRegister(old(Value()), i, clock)
    {
      hide CoordinatorStore.Valid, CoordinatorStore.Value, EventLoop.CloseClient, EventLoop.QueueMessage, Execute;
      var c := clients[i];
      if c.jobClient {
        CloseClient(i, clock);
        return;
      }
      var result, id := Register(c.fd, clock.op);
      if result == Fatal || result == Killed {
        return;
      }
      if result != StoreOk {
        CloseClient(i, clock);
        return;
      }
      SetClient(i, c.(workerId := id));
      QueueMessage(i, WorkerRegisterAck(id), clock);
    }

    method HandleHeartbeat(i: nat, id: u32, now: i64, clock: Clock)
      requires Valid() && !killed && i < MAX_CLIENTS
      modifies Repr()
      ensures Valid() && Value() == EventLoop.HandleHeartbeat(old(Value()), i, id, now, clock)
    {
      hide CoordinatorStore.Valid, CoordinatorStore.Value, EventLoop.CloseClient, RecordHeartbeat, EventLoop.ResetInput;
      var c := clients[i];
      if c.workerId == 0 || id != c.workerId {
        CloseClient(i, clock);
        return;
      }
      var ok := Beat(id, c.fd, now);
      if !ok {
        CloseClient(i, clock);
        return;
      }
      ResetInput(i);
    }

    method HandleSubmit(i: nat, submission: Submission, clock: Clock)
      requires Valid() && !killed && i < MAX_CLIENTS
      modifies Repr()
      ensures Valid() && Value() == EventLoop.HandleSubmit(old(Value()), i, submission, clock)
    {
      hide CoordinatorStore.Valid, CoordinatorStore.Value, EventLoop.CloseClient, EventLoop.QueueMessage, Execute;
      if clients[i].workerId != 0 {
        CloseClient(i, clock);
        return;
      }
      var result, id := Submit(submission, clock.op);
      if result == Fatal || result == Killed {
        return;
      }
      if result != StoreOk {
        CloseClient(i, clock);
        return;
      }
      SetClient(i, clients[i].(jobClient := true));
      QueueMessage(i, JobSubmitAck(id), clock);
    }

    method HandleStatus(i: nat, id: u64, clock: Clock)
      requires Valid() && !killed && i < MAX_CLIENTS
      modifies Repr()
      ensures Valid()
      ensures var loop := old(Value());
              Value() == EventLoop.QueueMessage(AsJobClient(loop, i), i, StatusReply(loop.store.jobs.jobs, id), clock)
    {
      hide CoordinatorStore.Valid, CoordinatorStore.Value, EventLoop.QueueMessage, FindSlot;
      var job := store.FindJob(id);
      var reply := if job.None? then JobStatusNotFound(id) else JobStatusResponse(StatusOf(job.value));
      SetClient(i, clients[i].(jobClient := true));
      QueueMessage(i, reply, clock);
    }

    method HandleReport(i: nat, report: Message, clock: Clock)
      requires Valid() && !killed && i < MAX_CLIENTS
      modifies Repr()
      ensures Valid() && Value() == EventLoop.HandleReport(old(Value()), i, report, clock)
    {
      hide CoordinatorStore.Valid, CoordinatorStore.Value, EventLoop.CloseClient, Execute, EventLoop.ResetInput;
      var result := Report(clients[i].workerId, report, clock.op);
      if result == Fatal || result == Killed {
        return;
      }
      if result != StoreOk {
        CloseClient(i, clock);
        return;
      }
      ResetInput(i);
    }

    /** `queue_listing`. */
    method HandleListing(i: nat, request: Message, clock: Clock)
      requires Valid() && !killed && i < MAX_CLIENTS
      modifies Repr()
      ensures Valid() && Value() == EventLoop.HandleListing(old(Value()), i, request, clock, config)
    {
      hide CoordinatorStore.Valid, CoordinatorStore.Value, EventLoop.CloseClient, EventLoop.QueueMessage,
           JobListing, WorkerListing;
      if clock.op < 0 {
        CloseClient(i, clock);
        return;
      }
      var view := store.Value();
      SetClient(i, clients[i].(jobClient := true));
      if request.JobsRequest? {
        var entries := ListJobs(view.jobs.jobs);
        QueueMessage(i, JobsResponse(entries), clock);
        return;
      }
      var list := ListWorkers(view.jobs.jobs, view.workers, clock.op);
      if list.None? {
        CloseClient(i, clock);
        return;
      }
      QueueMessage(i, WorkersResponse(TimeoutWord(config.heartbeatTimeout), list.value), clock);
    }

    method HandleStats(i: nat, clock: Clock)
      requires Valid() && !killed && i < MAX_CLIENTS
      modifies Repr()
      ensures Valid() && Value() == EventLoop.HandleStats(old(Value()), i, clock, config)
    {
      hide CoordinatorStore.Valid, CoordinatorStore.Value, EventLoop.CloseClient, EventLoop.QueueMessage, Snapshot;
      SetClient(i, clients[i].(jobClient := true));
      var stats := TakeSnapshot(config.session, store.Value(), clock.op, config.heartbeatTimeout);
      if stats.None? {
        CloseClient(i, clock);
        return;
      }
      QueueMessage(i, StatsResponse(stats.value), clock);
    }

    /** `handle_message`. */
    method HandleMessage(i: nat, m: Message, now: i64, clock: Clock)
      requires Valid() && !killed && i < MAX_CLIENTS
      modifies Repr()
      ensures Valid() && Value() == EventLoop.HandleMessage(old(Value()), i, m, now, clock, config)
    {
      hide CoordinatorStore.Valid, CoordinatorStore.Value, EventLoop.CloseClient, EventLoop.QueueMessage,
           EventLoop.HandleRegister, EventLoop.HandleHeartbeat, EventLoop.HandleSubmit, EventLoop.HandleReport,
           EventLoop.HandleListing, EventLoop.HandleStats, StatusReply, AsJobClient, Coordinator.Valid,
           Coordinator.Value;
      match m {
        case Ping => QueueMessage(i, Pong, clock);
        case WorkerRegister => HandleRegister(i, clock);
        case Heartbeat(id) => HandleHeartbeat(i, id, now, clock);
        case JobSubmit(submission) => HandleSubmit(i, submission, clock);
        case JobStatusRequest(id) => HandleStatus(i, id, clock);
        case StartedReport(_) => HandleReport(i, m, clock);
        case CompletedReport(_, _) => HandleReport(i, m, clock);
        case FailedReport(_, _) => HandleReport(i, m, clock);
        case JobsRequest => HandleListing(i, m, clock);
        case WorkersRequest => HandleListing(i, m, clock);
        case StatsRequest => HandleStats(i, clock);
        case _ => CloseClient(i, clock);
      }
    }

    /** The end of `read_message`, once as many bytes are there as were expected. */
    method HandleFrame(i: nat, now: i64, clock: Clock)
      requires Valid() && !killed && i < MAX_CLIENTS
      modifies Repr()
      ensures Valid()
      ensures var loop := old(Value());
              Value() == match FrameOf(loop.clients[i])
                         case Broken => EventLoop.CloseClient(loop, i, clock)
                         case More(expected) => WithClient(loop, i, loop.clients[i].(expected := expected))
                         case Whole(m) => EventLoop.HandleMessage(loop, i, m, now, clock, config)
    {
      hide CoordinatorStore.Valid, CoordinatorStore.Value, EventLoop.CloseClient, EventLoop.HandleMessage,
           DecodeFrameHeader, DecodeMessage, Allowed;
      var c := clients[i];
      var header := DecodeFrameHeader(c.input);
      if |c.input| == WIRE_HEADER_SIZE {
        if header.Err? {
          CloseClient(i, clock);
          return;
        }
        if !Allowed(header.value.code, c) {
          CloseClient(i, clock);
          return;
        }
      }
      var read := DecodeMessage(c.input);
      if read == Err(BufferTooSmall) {
        if header.Err? || header.value.length > MAX_FRAME_SIZE - WIRE_HEADER_SIZE {
          CloseClient(i, clock);
          return;
        }
        SetClient(i, c.(expected := WIRE_HEADER_SIZE + header.value.length));
        return;
      }
      if read.Err? {
        CloseClient(i, clock);
        return;
      }
      HandleMessage(i, read.value.message, now, clock);
    }

    /** `read_message`. */
    method ReadMessage(i: nat, recv: Recv, now: i64, clock: Clock)
      requires Valid() && !killed && i < MAX_CLIENTS
      modifies Repr()
      ensures Valid() && Value() == EventLoop.ReadMessage(old(Value()), i, recv, now, clock, config)
    {
      hide CoordinatorStore.Valid, CoordinatorStore.Value, EventLoop.CloseClient, EventLoop.HandleMessage, FrameOf;
      match recv {
        case Eof => CloseClient(i, clock);
        case RecvFailed => CloseClient(i, clock);
        case RecvWait =>
        case Data(chunk) =>
          var c := clients[i].(input := clients[i].input + chunk, lastProgress := now);
          SetClient(i, c);
          if |c.input| >= c.expected {
            HandleFrame(i, now, clock);
          }
      }
    }

    /** `write_reply`. */
    method WriteReply(i: nat, send: Send, now: i64, clock: Clock)
      requires Valid() && !killed && i < MAX_CLIENTS
      modifies Repr()
      ensures Valid() && Value() == EventLoop.WriteReply(old(Value()), i, send, now, clock)
    {
      hide CoordinatorStore.Valid, CoordinatorStore.Value, EventLoop.CloseClient, EventLoop.ResetInput;
      match send {
        case SendFailed => CloseClient(i, clock);
        case SendWait =>
        case Sent(n) =>
          if n == 0 {
            CloseClient(i, clock);
            return;
          }
          var c := clients[i].(sent := clients[i].sent + n, lastProgress := now);
          SetClient(i, c);
          if c.sent == |c.output| {
            ResetInput(i);
          }
      }
    }

    /** One client's round of `run_coordinator`: expire, then serve, then check the
        deadline. */
    method Turn(i: nat, poll: Poll, now: i64, clock: Clock)
      requires Valid() && !killed && i < MAX_CLIENTS
      modifies Repr()
      ensures Valid() && Value() == EventLoop.Turn(old(Value()), i, poll, now, clock, config)
    {
      hide CoordinatorStore.Valid, CoordinatorStore.Value, EventLoop.CloseClient, EventLoop.ReadMessage,
           EventLoop.WriteReply, TimedOut, WorkerSlot;
      if clients[i].fd < 0 {
        return;
      }
      var worker := store.FindWorker(clients[i].workerId);
      if worker.Some? && TimedOut(worker.value, now, config.heartbeatTimeout) {
        CloseClient(i, clock);
        return;
      }
      if poll.Invalid? {
        CloseClient(i, clock);
        return;
      }
      if clients[i].phase == Reading && poll.Readable? {
        ReadMessage(i, poll.recv, now, clock);
      } else if clients[i].phase == Writing && poll.Writable? {
        WriteReply(i, poll.send, now, clock);
      }
      var c := clients[i];
      if !killed && c.fd >= 0 && (c.workerId == 0 || c.phase == Writing || c.input != [])
         && now - c.lastProgress >= IO_TIMEOUT {
        CloseClient(i, clock);
      }
    }

    /** `accept_clients`, for one accepted connection. */
    method Accept(fd: int, now: i64)
      requires Valid()
      modifies Repr()
      ensures Valid() && Value() == EventLoop.Accept(old(Value()), fd, now)
    {
      hide CoordinatorStore.Valid, CoordinatorStore.Value, FreeClient;
      var slot: nat := 0;
      while slot < MAX_CLIENTS && clients[slot].fd >= 0
        invariant slot <= MAX_CLIENTS
        invariant forall k :: 0 <= k < slot ==> Value().clients[k].fd >= 0
      {
        slot := slot + 1;
      }
      FirstFree(Value().clients, slot);
      if slot < MAX_CLIENTS {
        SetClient(slot, Client(fd, Reading, 0, false, [], WIRE_HEADER_SIZE, [], 0, now));
      }
    }

    /** The guards of `schedule_jobs` for one client. */
    method Ready(i: nat, now: i64) returns (ready: bool)
      requires Valid() && i < MAX_CLIENTS
      ensures ready == ReadyForWork(Value(), i, now, config)
    {
      hide CoordinatorStore.Valid, CoordinatorStore.Value, TimedOut, WorkerSlot, ActiveSlot;
      var c := clients[i];
      var worker := store.FindWorker(c.workerId);
      var holds := store.Holds(c.workerId);
      ready := c.fd >= 0 && worker.Some? && worker.value.state == Alive && worker.value.fd == c.fd
               && !TimedOut(worker.value, now, config.heartbeatTimeout)
               && c.phase == Reading && c.input == [] && !holds;
    }

    /** One round of `schedule_jobs`: what is sent is the assignment just logged. */
    method Schedule(i: nat, now: i64, clock: Clock)
      requires Valid() && !killed && i < MAX_CLIENTS
      modifies Repr()
      ensures Valid() && Value() == EventLoop.Schedule(old(Value()), i, now, clock, config)
    {
      hide CoordinatorStore.Valid, CoordinatorStore.Value, ReadyForWork, Execute, EventLoop.QueueMessage, FindSlot,
           Dispatched;
      var waiting := store.HasPending();
      if !waiting || now < 0 {
        return;
      }
      var ready := Ready(i, now);
      if !ready {
        return;
      }
      ghost var before, id := Value(), clients[i].workerId;
      var result, assignment := Assign(clients[i].workerId, now);
      if result != StoreOk {
        return;
      }
      AssignmentIsLogged(before.store, before.disk, id, now, assignment);
      QueueMessage(i, assignment.value, clock);
    }

    /** One event of the loop. */
    method React(event: Event)
      requires Valid()
      modifies Repr()
      ensures Valid() && Value() == EventLoop.React(old(Value()), event, config)
    {
      hide CoordinatorStore.Valid, CoordinatorStore.Value, EventLoop.Turn, EventLoop.Schedule, EventLoop.Accept;
      if killed || store.fault != NoFault {
        return;
      }
      match event {
        case Accepted(fd, now) =>
          Accept(fd, now);
        case Polled(i, poll, now, clock, script) =>
          if i < MAX_CLIENTS {
            store.wal.storage.script := script;
            Turn(i, poll, now, clock);
          }
        case Scheduled(i, now, clock, script) =>
          if i < MAX_CLIENTS {
            store.wal.storage.script := script;
            Schedule(i, now, clock);
          }
      }
    }

    /** `run_coordinator` over any sequence of events. */
    method Run(events: seq<Event>)
      requires Valid()
      modifies Repr()
      ensures Valid() && Value() == RunLoop(old(Value()), events, config)
    {
      hide CoordinatorStore.Valid, CoordinatorStore.Value, EventLoop.React;
      for n := 0 to |events|
        invariant Valid() && Value() == RunLoop(old(Value()), events[..n], config)
      {
        React(events[n]);
        assert events[..n + 1][..n] == events[..n];
      }
      assert events[..|events|] == events;
    }
  }

  /** A whole coordinator: open the log, or create it in a new file, begin the
      statistics, serve events.  `open` is the startup that took place; there is a
      coordinator exactly if it succeeded and the clock has not gone back since.

      Whatever the storage does, the log that is left replays to what was published
      last or one record further.  As long as the coordinator is in service, after any
      events the operating system can produce, no lease is orphaned. */
  method RunCoordinator(storage: Storage, initialize: bool, now: i64, begun: i64, timeout: i32, events: seq<Event>)
    returns (coordinator: Coordinator?, ghost open: Opening, ghost read: IoStatus, ghost rest: seq<Io>)
    requires storage.position == 0 && (initialize ==> storage.file == [])
    modifies storage
    ensures initialize ==> open == CreateNew(old(storage.script), now)
    ensures !initialize ==>
              && Later(old(storage.script), rest)
              && open == OpenExisting(WriterModel.Disk(old(storage.file), rest), now, read)
    ensures coordinator != null <==>
              open.result == StoreOk && open.store.Some? && open.store.value.sessionStart <= begun
    ensures coordinator != null ==>
              && coordinator.Valid() && coordinator.config.heartbeatTimeout == timeout
              && Startup(open) && open.result == StoreOk && open.store.Some?
              && Begin(open.store.value, begun) == Some(coordinator.config.session)
              && coordinator.Value() == RunLoop(StartLoop(open.store.value, open.disk.file), events, coordinator.config)
    ensures coordinator != null ==>
              var loop := coordinator.Value();
              && RecoversExactly(loop.disk.file, PublishedBy(loop.store))
              && (AllPossible(StartLoop(open.store.value, open.disk.file), events, coordinator.config)
                  && InService(loop)
                  ==> NothingOrphaned(loop))
  {
    hide CoordinatorStore.Valid, CoordinatorStore.Value, Begin, RunLoop, StartLoop, OpenExisting, CreateNew,
         RecoversExactly, NothingOrphaned, InService, AllPossible, Startup, Later;
    coordinator := null;
    var store, result;
    store, result, open, read, rest := OpenStore(storage, initialize, now);
    if result != StoreOk {
      return;
    }
    SessionBegins(open, begun);
    var session := BeginSession(store.Value(), begun);
    if session.None? {
      return;
    }
    storage.script := [];
    coordinator := new Coordinator(store, Config(timeout, session.value));
    coordinator.Run(events);
    LoopLeavesItsLog(open, events, coordinator.config);
    if AllPossible(StartLoop(open.store.value, open.disk.file), events, coordinator.config) {
      NoOrphanedLease(open, events, coordinator.config);
    }
  }

  /** `faultline_store_init` and `faultline_store_open_with_io`. */
  method OpenStore(storage: Storage, initialize: bool, now: i64)
    returns (store: CoordinatorStore, result: StoreResult, ghost open: Opening, ghost read: IoStatus,
        ghost rest: seq<Io>)
    requires storage.position == 0 && (initialize ==> storage.file == [])
    modifies storage
    ensures initialize ==> open == CreateNew(old(storage.script), now)
    ensures !initialize ==>
              && Later(old(storage.script), rest)
              && open == OpenExisting(WriterModel.Disk(old(storage.file), rest), now, read)
    ensures result == open.result
    ensures store.Valid() && store.wal.storage == storage && fresh(store.Repr() - {storage})
    ensures result == StoreOk ==>
              Startup(open) && open.result == StoreOk && open.store == Some(store.Value()) && open.disk == store.Disk()
  {
    hide JobStore.Valid, JobStore.Value, WorkerRegistry.Valid, WorkerRegistry.Value, OpenExisting, CreateNew, Later;
    store := new CoordinatorStore(storage);
    ghost var file, script := storage.file, storage.script;
    read, rest := IoOk, script;
    if initialize {
      result := store.OpenNew(now);
      open := CreateNew(script, now);
      if result == StoreOk {
        CreateWrites(script, now);
      }
    } else {
      result, read, rest := store.Open(now);
      open := OpenExisting(WriterModel.Disk(file, rest), now, read);
      if result == StoreOk {
        OpenedHasStore(WriterModel.Disk(file, rest), now, read);
      }
    }
  }

  lemma OpenedHasStore(disk: WriterModel.Disk, now: i64, read: IoStatus)
    requires OpenExisting(disk, now, read).result == StoreOk
    ensures OpenExisting(disk, now, read).store.Some? && Replay(disk.file).Ok?
  {
    hide Replay, Repair, Reconcile;
  }

  /** The message handed out names the job that was at the head of the queue, as the
      store now records it. */
  lemma AssignmentIsLogged(store: Store, disk: WriterModel.Disk, workerId: u32, now: i64, assignment: Option<Message>)
    requires store.jobs.pending != [] && Dispatched(store, workerId, now, assignment)
    requires Execute(store, disk, AssignJob(workerId, now)).result == StoreOk
    ensures var jobs := Execute(store, disk, AssignJob(workerId, now)).store.jobs.jobs;
            var slot := FindSlot(jobs, store.jobs.pending[0]);
            slot < |jobs| && assignment == Some(Assignment(jobs[slot]))
  {
    hide Execute, JobTime, FindSlot, Dispatch;
    HeadIsDispatched(store, disk, workerId, now);
  }

  lemma {:induction false} FirstFree(clients: seq<Client>, slot: nat)
    requires slot <= |clients| && forall k :: 0 <= k < slot ==> clients[k].fd >= 0
    requires slot < |clients| ==> clients[slot].fd < 0
    ensures FreeClient(clients) == slot
  {
    if clients != [] && clients[0].fd >= 0 {
      FirstFree(clients[1..], slot - 1);
    }
  }
}
