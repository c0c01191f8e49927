/** Safety of the event loop over every run: no lease is orphaned, roles are exclusive
    and framing never runs past its buffer. */
module LoopSafety {
  import opened Base
  import opened JobModel
  import opened Messages
  import opened SchedulerModel
  import opened RegistryModel
  import opened WalFormat
  import opened WriterModel
  import opened HistoryModel
  import opened ReplayModel
  import opened StoreModel
  import opened Durability
  import opened Sessions
  import opened Protocol
  import opened ProtocolCodec
  import opened EventLoop
  import opened Leases
  import opened Framing
  import opened StartupModel
  import opened Settlement
  import opened Recovery

  // ---------- connections and workers ----------

  predicate Distinct(clients: seq<Client>) {
    forall i, j :: 0 <= i < j < |clients| && clients[i].fd >= 0 ==> clients[i].fd != clients[j].fd
  }

  /** A connection with a worker ID is open, is no job client, and is that worker's. */
  predicate Bound(c: Client, registry: Registry) {
    c.workerId != 0 ==> c.fd >= 0 && !c.jobClient && AliveOn(registry, c.workerId, c.fd)
  }

  predicate OwnedBy(c: Client, w: Worker) {
    c.workerId == w.id && c.fd == w.fd
  }

  predicate HasOwner(clients: seq<Client>, w: Worker) {
    exists i :: 0 <= i < |clients| && OwnedBy(clients[i], w)
  }

  predicate Bindings(clients: seq<Client>, registry: Registry) {
    && |clients| == MAX_CLIENTS
    && Distinct(clients)
    && (forall i :: 0 <= i < |clients| ==> Bound(clients[i], registry))
    && (forall s :: 0 <= s < |registry.workers| && registry.workers[s].state == Alive ==>
      HasOwner(clients, registry.workers[s]))
  }

  /** A change that leaves connection, worker ID and role alone. */
  predicate SameBinding(c: Client, d: Client) {
    d.fd == c.fd && d.workerId == c.workerId && (d.workerId != 0 ==> d.jobClient == c.jobClient)
  }

  lemma RebindSame(clients: seq<Client>, registry: Registry, i: nat, d: Client)
    requires Bindings(clients, registry) && i < |clients| && SameBinding(clients[i], d)
    ensures Bindings(clients[i := d], registry)
  {
    hide AliveOn;
    var after := clients[i := d];
    forall s | 0 <= s < |registry.workers| && registry.workers[s].state == Alive
        ensures HasOwner(after, registry.workers[s]) {
      var k :| 0 <= k < |clients| && OwnedBy(clients[k], registry.workers[s]);
      assert OwnedBy(after[k], registry.workers[s]);
    }
  }

  lemma RegistryBeats(clients: seq<Client>, before: Registry, after: Registry)
    requires Bindings(clients, before)
    requires |after.workers| == |before.workers|
    requires forall s :: 0 <= s < |after.workers| ==>
               after.workers[s].state == before.workers[s].state && after.workers[s].id == before.workers[s].id
               && after.workers[s].fd == before.workers[s].fd
    requires forall id, f :: AliveOn(before, id, f) ==> AliveOn(after, id, f)
    ensures Bindings(clients, after)
  {
    hide AliveOn;
    forall s | 0 <= s < |after.workers| && after.workers[s].state == Alive ensures HasOwner(clients, after.workers[s]) {
      var k :| 0 <= k < |clients| && OwnedBy(clients[k], before.workers[s]);
      assert OwnedBy(clients[k], after.workers[s]);
    }
  }

  /** Closing a connection that has no worker. */
  lemma CloseIdle(clients: seq<Client>, registry: Registry, i: nat, d: Client)
    requires Bindings(clients, registry) && RegistryOk(registry) && i < |clients| && clients[i].workerId == 0
    requires d.fd < 0 && d.workerId == 0
    ensures Bindings(clients[i := d], registry)
  {
    hide AliveOn;
    var after := clients[i := d];
    forall s | 0 <= s < |registry.workers| && registry.workers[s].state == Alive
        ensures HasOwner(after, registry.workers[s]) {
      var k :| 0 <= k < |clients| && OwnedBy(clients[k], registry.workers[s]);
      assert Used(registry.workers[s]);
      assert k != i;
      assert OwnedBy(after[k], registry.workers[s]);
    }
  }

  lemma OtherWorker(clients: seq<Client>, registry: Registry, i: nat, k: nat)
    requires Bindings(clients, registry) && RegistryOk(registry) && i < |clients| && k < |clients| && i != k
    requires clients[i].workerId != 0 && clients[k].workerId != 0
    ensures clients[i].workerId != clients[k].workerId
  {
    assert Bound(clients[i], registry) && Bound(clients[k], registry);
    AliveConnection(registry, clients[i].workerId, clients[i].fd);
    AliveConnection(registry, clients[k].workerId, clients[k].fd);
  }

  /** Closing a worker's connection and burying the worker. */
  lemma CloseWorker(clients: seq<Client>, registry: Registry, i: nat, d: Client)
    requires Bindings(clients, registry) && RegistryOk(registry) && i < |clients| && clients[i].workerId != 0
    requires d.fd < 0 && d.workerId == 0
    ensures MarkDead(registry, clients[i].workerId, clients[i].fd).Ok?
    ensures Bindings(clients[i := d], MarkDead(registry, clients[i].workerId, clients[i].fd).value)
  {
    hide AliveOn, MarkDead;
    var id := clients[i].workerId;
    assert Bound(clients[i], registry);
    DeathUnbinds(registry, id, clients[i].fd);
    var after, next := clients[i := d], MarkDead(registry, id, clients[i].fd).value;
    forall k | 0 <= k < |after| ensures Bound(after[k], next) {
      if k != i && clients[k].workerId != 0 {
        OtherWorker(clients, registry, i, k);
        assert Bound(clients[k], registry);
      }
    }
    forall s | 0 <= s < |next.workers| && next.workers[s].state == Alive ensures HasOwner(after, next.workers[s]) {
      var k :| 0 <= k < |clients| && OwnedBy(clients[k], registry.workers[s]);
      assert k != i;
      assert OwnedBy(after[k], next.workers[s]);
    }
  }

  /** A connection becomes a worker. */
  lemma BindWorker(clients: seq<Client>, registry: Registry, i: nat, now: i64)
    requires Bindings(clients, registry) && RegistryOk(registry) && i < |clients| && !clients[i].jobClient
    requires Register(registry, clients[i].fd, now).Ok?
    ensures clients[i].workerId == 0
    ensures Bindings(clients[i := clients[i].(workerId := registry.nextWorkerId)],
        Register(registry, clients[i].fd, now).value)
  {
    hide RegistryOk;
    var c := clients[i];
    var next := Register(registry, c.fd, now).value;
    RegisterAdds(registry, c.fd, now);
    FreshConnection(clients, registry, i, now);
    hide Register, AliveOn;
    var after := clients[i := c.(workerId := registry.nextWorkerId)];
    forall k | 0 <= k < |after| ensures Bound(after[k], next) {
      assert Bound(clients[k], registry);
    }
    forall s | 0 <= s < |next.workers| && next.workers[s].state == Alive ensures HasOwner(after, next.workers[s]) {
      OwnerOf(clients, registry, i, next, s);
    }
  }

  lemma FreshConnection(clients: seq<Client>, registry: Registry, i: nat, now: i64)
    requires Bindings(clients, registry) && i < |clients| && Register(registry, clients[i].fd, now).Ok?
    ensures clients[i].workerId == 0 && clients[i].fd >= 0 && registry.nextWorkerId != 0
  {
    assert Bound(clients[i], registry);
  }

  lemma OwnerOf(clients: seq<Client>, registry: Registry, i: nat, next: Registry, s: nat)
    requires Bindings(clients, registry) && i < |clients| && clients[i].workerId == 0 && registry.nextWorkerId != 0
    requires RegistryOk(registry)
    requires s < |next.workers| && next.workers[s].state == Alive
    requires LiveAs(next.workers[s], registry.nextWorkerId, clients[i].fd)
             || AliveOn(registry, next.workers[s].id, next.workers[s].fd)
    ensures HasOwner(clients[i := clients[i].(workerId := registry.nextWorkerId)], next.workers[s])
  {
    var after := clients[i := clients[i].(workerId := registry.nextWorkerId)];
    if LiveAs(next.workers[s], registry.nextWorkerId, clients[i].fd) {
      assert OwnedBy(after[i], next.workers[s]);
    } else {
      var t :| 0 <= t < |registry.workers| && LiveAs(registry.workers[t], next.workers[s].id, next.workers[s].fd);
      var k :| 0 <= k < |clients| && OwnedBy(clients[k], registry.workers[t]);
      assert Used(registry.workers[t]);
      assert k != i;
      assert OwnedBy(after[k], next.workers[s]);
    }
  }

  // ---------- framing ----------

  /** A connection that is being read has room for what it expects, and if its header
      is complete then the header announces a message its role allows. */
  predicate FrameOk(c: Client) {
    c.fd >= 0 && c.phase == Reading ==>
      && |c.input| < c.expected <= MAX_FRAME_SIZE
      && (if |c.input| < WIRE_HEADER_SIZE then c.expected == WIRE_HEADER_SIZE
          else
            var header := DecodeFrameHeader(c.input);
            header.Ok? && Allowed(header.value.code, c) && c.expected == WIRE_HEADER_SIZE + header.value.length)
  }

  predicate FramesOk(clients: seq<Client>) {
    forall i :: 0 <= i < |clients| ==> FrameOk(clients[i])
  }

  predicate FramesExcept(clients: seq<Client>, i: nat) {
    forall k :: 0 <= k < |clients| && k != i ==> FrameOk(clients[k])
  }

  // ---------- the loop invariant ----------

  /** Everything but the frame of the client that is being served. */
  ghost predicate Sane(loop: Loop) {
    && Durable(loop.store, loop.disk.file)
    && LeasesAlive(loop.store.jobs.jobs, loop.store.workers)
    && Bindings(loop.clients, loop.store.workers)
  }

  ghost predicate LoopOk(loop: Loop) {
    InService(loop) ==> Sane(loop) && FramesOk(loop.clients)
  }

  /** The state a handler starts from. */
  ghost predicate Serving(loop: Loop, i: nat) {
    InService(loop) && Sane(loop) && i < |loop.clients| && FramesExcept(loop.clients, i)
  }

  lemma UpdateKeeps(loop: Loop, i: nat, d: Client)
    requires Serving(loop, i) && SameBinding(loop.clients[i], d)
    ensures Serving(WithClient(loop, i, d), i)
    ensures FrameOk(d) ==> LoopOk(WithClient(loop, i, d))
  {
    hide Durable, LeasesAlive, Bindings, FrameOk;
    RebindSame(loop.clients, loop.store.workers, i, d);
  }

  /** After an operation the loop has ended, or is as sane as before. */
  lemma PerformKeeps(loop: Loop, i: nat, op: Operation)
    requires Serving(loop, i) && !op.RegisterWorker?
    ensures var done := Perform(loop, op);
            && done.1.clients == loop.clients
            && (done.0 == Fatal || done.0 == Killed ==> !InService(done.1))
            && (done.0 != Fatal && done.0 != Killed ==>
              Serving(done.1, i) && done.1.store.workers == loop.store.workers)
            && (done.0 == StoreOk && op.LoseWorkerOf? ==> HoldsNothing(done.1.store.jobs.jobs, op.workerId))
            && (done.0 != StoreOk && InService(done.1) ==>
              done.1 == loop && PlanFor(loop.store, op) == Refuse(done.0, NoFault))
  {
    hide Durable, LeasesAlive, Bindings, FrameOk, Execute, HoldsNothing, PlanFor;
    ExecuteOutcome(loop.store, loop.disk, op);
    DurableRuns(loop.store, loop.disk.file);
    var step := Execute(loop.store, loop.disk, op);
    if step.result == StoreOk {
      DurableRuns(step.store, step.disk.file);
    }
  }

  lemma DurableRuns(store: Store, file: bytes)
    requires Durable(store, file)
    ensures store.fault == NoFault
  {}

  /** Closing a client, from any sane state. */
  lemma CloseKeeps(loop: Loop, i: nat, clock: Clock)
    requires Serving(loop, i)
    ensures LoopOk(CloseClient(loop, i, clock))
    ensures var after := CloseClient(loop, i, clock); InService(after) ==> after.clients[i].fd < 0
  {
    hide Durable, LeasesAlive, Bindings, FrameOk, Perform, MarkDead, ActiveSlot;
    var c := loop.clients[i];
    DurableRegistry(loop.store, loop.disk.file);
    if c.workerId == 0 {
      CloseIdle(loop.clients, loop.store.workers, i, c.(fd := -1));
      ClosedFrame(c.(fd := -1));
    } else {
      var jobs := loop.store.jobs.jobs;
      var lost := if ActiveSlot(jobs, c.workerId) < |jobs| then Perform(loop, LoseWorkerOf(c.workerId, clock.loss)).1
          else loop;
      if ActiveSlot(jobs, c.workerId) < |jobs| {
        PerformKeeps(loop, i, LoseWorkerOf(c.workerId, clock.loss));
        LossCommits(loop.store, c.workerId, clock.loss);
      } else {
        NoneHeld(jobs, c.workerId);
      }
      if InService(lost) {
        DurableRegistry(lost.store, lost.disk.file);
        BuryKeeps(lost, i);
        ClosedFrame(c.(fd := -1, workerId := 0));
      }
    }
  }

  lemma ClosedFrame(c: Client)
    requires c.fd < 0
    ensures FrameOk(c)
  {}

  lemma NoneHeld(jobs: seq<Job>, id: u32)
    requires id != 0 && ActiveSlot(jobs, id) == |jobs|
    ensures HoldsNothing(jobs, id)
  {
    forall k | 0 <= k < |jobs| && IsActive(jobs[k]) ensures jobs[k].workerId != id {
      assert !Leased(jobs[k], id);
    }
  }

  lemma DurableRegistry(store: Store, file: bytes)
    requires Durable(store, file)
    ensures RegistryOk(store.workers) && SchedulerOk(store.jobs)
  {
    hide RegistryOk, SchedulerOk;
    DurableMirrors(store, file);
  }

  /** A loss for a worker that holds a job is never refused, except by the clock. */
  lemma LossCommits(store: Store, id: u32, now: i64)
    requires ActiveSlot(store.jobs.jobs, id) < |store.jobs.jobs|
    ensures var plan := PlanFor(store, LoseWorkerOf(id, now)); plan.Refuse? ==> plan.result == Fatal
  {
    hide LoseWorker, ActiveSlot, FindSlot, JobTime;
  }

  lemma BuryKeeps(loop: Loop, i: nat)
    requires Serving(loop, i) && loop.clients[i].workerId != 0
    requires HoldsNothing(loop.store.jobs.jobs, loop.clients[i].workerId)
    ensures var c := loop.clients[i];
            var buried := Buried(loop.store.workers, c.workerId, c.fd);
            var after := WithClient(loop.(store := loop.store.(workers := buried)),
                                    i, c.(fd := -1, workerId := 0));
            Serving(after, i)
  {
    hide WorldOk, MarkDead, AliveOn, AliveId, FrameOk;
    var c := loop.clients[i];
    var registry := loop.store.workers;
    DurableRegistry(loop.store, loop.disk.file);
    assert Bound(c, registry);
    CloseWorker(loop.clients, registry, i, c.(fd := -1, workerId := 0));
    DeathUnbinds(registry, c.workerId, c.fd);
    var next := MarkDead(registry, c.workerId, c.fd).value;
    var world := World(loop.disk.file, Some(loop.store), PublishedBy(loop.store));
    BuryIsUpdate(world, c.workerId, c.fd);
    BuriedPublished(loop.store, c.workerId, c.fd);
    assert Durable(loop.store.(workers := next), loop.disk.file);
  }

  lemma BuriedPublished(store: Store, id: u32, fd: int)
    requires MarkDead(store.workers, id, fd).Ok?
    ensures PublishedBy(store.(workers := MarkDead(store.workers, id, fd).value)) == PublishedBy(store)
  {}

  // ---------- handlers ----------

  lemma QueueKeeps(loop: Loop, i: nat, m: Message, clock: Clock)
    requires Serving(loop, i)
    ensures LoopOk(QueueMessage(loop, i, m, clock))
  {
    hide Sane, FrameOk, EncodeMessage, CloseClient;
    var wire := EncodeMessage(m, MAX_FRAME_SIZE);
    if wire.Err? || clock.reply < 0 {
      CloseKeeps(loop, i, clock);
    } else {
      var d := loop.clients[i].(output := wire.value, sent := 0, lastProgress := clock.reply, phase := Writing);
      WritingFrame(d);
      UpdateKeeps(loop, i, d);
    }
  }

  lemma WritingFrame(c: Client)
    requires c.phase == Writing
    ensures FrameOk(c)
  {}

  lemma FreshFrame(c: Client)
    ensures FrameOk(ResetInput(c))
  {}

  /** Only connections without a worker become job clients. */
  lemma JobClientKeeps(loop: Loop, i: nat)
    requires Serving(loop, i) && loop.clients[i].workerId == 0
    ensures Serving(AsJobClient(loop, i), i)
  {
    hide Sane, FrameOk;
    UpdateKeeps(loop, i, loop.clients[i].(jobClient := true));
  }

  lemma RegisterKeeps(loop: Loop, i: nat, clock: Clock)
    requires Serving(loop, i)
    ensures LoopOk(HandleRegister(loop, i, clock))
  {
    hide Durable, LeasesAlive, Bindings, FrameOk, Execute, QueueMessage, CloseClient, RegistryOk, Register, PlanFor;
    var c := loop.clients[i];
    if c.jobClient {
      CloseKeeps(loop, i, clock);
    } else {
      var op := RegisterWorker(c.fd, clock.op);
      var id := loop.store.workers.nextWorkerId;
      ExecuteOutcome(loop.store, loop.disk, op);
      var step := Execute(loop.store, loop.disk, op);
      var done := Perform(loop, op);
      if step.result == StoreOk {
        DurableRegistry(loop.store, loop.disk.file);
        DurableRuns(step.store, step.disk.file);
        BindWorker(loop.clients, loop.store.workers, i, clock.op);
        QueueKeeps(WithClient(done.1, i, c.(workerId := id)), i, WorkerRegisterAck(id), clock);
      } else if step.result != Fatal && step.result != Killed {
        CloseKeeps(done.1, i, clock);
      }
    }
  }

  lemma HeartbeatKeeps(loop: Loop, i: nat, id: u32, now: i64, clock: Clock)
    requires Serving(loop, i)
    ensures LoopOk(HandleHeartbeat(loop, i, id, now, clock))
  {
    hide WorldOk, LeasesAlive, Bindings, FrameOk, CloseClient, RecordHeartbeat;
    var c := loop.clients[i];
    var beat := RecordHeartbeat(loop.store.workers, id, c.fd, now);
    if c.workerId == 0 || id != c.workerId || beat.Err? {
      CloseKeeps(loop, i, clock);
    } else {
      var next := loop.(store := loop.store.(workers := beat.value));
      BeatKeeps(loop, i, id, now);
      FreshFrame(c);
      UpdateKeeps(next, i, ResetInput(c));
    }
  }

  lemma BeatKeeps(loop: Loop, i: nat, id: u32, now: i64)
    requires Serving(loop, i)
    requires RecordHeartbeat(loop.store.workers, id, loop.clients[i].fd, now).Ok?
    ensures var beat := RecordHeartbeat(loop.store.workers, id, loop.clients[i].fd, now).value;
            Serving(loop.(store := loop.store.(workers := beat)), i)
  {
    hide WorldOk, AliveOn, AliveId, Bindings, FrameOk;
    var fd := loop.clients[i].fd;
    var registry := loop.store.workers;
    var next := RecordHeartbeat(registry, id, fd, now).value;
    HeartbeatBinds(registry, id, fd, now);
    RegistryBeats(loop.clients, registry, next);
    AliveGrows(loop.store.jobs.jobs, registry, next);
    var world := World(loop.disk.file, Some(loop.store), PublishedBy(loop.store));
    BeatIsUpdate(world, id, fd, now);
    assert PublishedBy(loop.store.(workers := next)) == PublishedBy(loop.store);
    assert Durable(loop.store.(workers := next), loop.disk.file);
  }

  lemma SubmitKeeps(loop: Loop, i: nat, submission: Submission, clock: Clock)
    requires Serving(loop, i)
    ensures LoopOk(HandleSubmit(loop, i, submission, clock))
  {
    hide Sane, FrameOk, Perform, QueueMessage, CloseClient, PlanFor;
    if loop.clients[i].workerId != 0 {
      CloseKeeps(loop, i, clock);
    } else {
      var op := SubmitJob(submission, clock.op);
      PerformKeeps(loop, i, op);
      var done := Perform(loop, op);
      if done.0 == StoreOk {
        JobClientKeeps(done.1, i);
        QueueKeeps(AsJobClient(done.1, i), i, JobSubmitAck(loop.store.jobs.nextJobId), clock);
      } else if done.0 != Fatal && done.0 != Killed {
        CloseKeeps(done.1, i, clock);
      }
    }
  }

  lemma ReportKeeps(loop: Loop, i: nat, report: Message, clock: Clock)
    requires Serving(loop, i)
    ensures LoopOk(HandleReport(loop, i, report, clock))
  {
    hide Sane, FrameOk, Perform, CloseClient, PlanFor;
    var c := loop.clients[i];
    var op := ReportJob(c.workerId, report, clock.op);
    PerformKeeps(loop, i, op);
    var done := Perform(loop, op);
    if done.0 == StoreOk {
      FreshFrame(c);
      UpdateKeeps(done.1, i, ResetInput(c));
    } else if done.0 != Fatal && done.0 != Killed {
      CloseKeeps(done.1, i, clock);
    }
  }

  lemma ListingKeeps(loop: Loop, i: nat, request: Message, clock: Clock, config: Config)
    requires Serving(loop, i) && loop.clients[i].workerId == 0
    ensures LoopOk(HandleListing(loop, i, request, clock, config))
  {
    hide Sane, FrameOk, CloseClient, QueueMessage;
    JobClientKeeps(loop, i);
    CloseKeeps(loop, i, clock);
    CloseKeeps(AsJobClient(loop, i), i, clock);
    forall m: Message ensures LoopOk(QueueMessage(AsJobClient(loop, i), i, m, clock)) {
      QueueKeeps(AsJobClient(loop, i), i, m, clock);
    }
  }

  lemma StatsKeeps(loop: Loop, i: nat, clock: Clock, config: Config)
    requires Serving(loop, i) && loop.clients[i].workerId == 0
    ensures LoopOk(HandleStats(loop, i, clock, config))
  {
    hide Sane, FrameOk, CloseClient, QueueMessage;
    JobClientKeeps(loop, i);
    CloseKeeps(AsJobClient(loop, i), i, clock);
    forall m: Message ensures LoopOk(QueueMessage(AsJobClient(loop, i), i, m, clock)) {
      QueueKeeps(AsJobClient(loop, i), i, m, clock);
    }
  }

  /** Handling a message its sender's role allows. */
  lemma HandleKeeps(loop: Loop, i: nat, m: Message, now: i64, clock: Clock, config: Config)
    requires Serving(loop, i) && Allowed(Code(m), loop.clients[i])
    ensures LoopOk(HandleMessage(loop, i, m, now, clock, config))
  {
    hide Sane, FrameOk, CloseClient, QueueMessage, HandleRegister, HandleHeartbeat, HandleSubmit, HandleReport,
      HandleListing, HandleStats;
    match m {
      case Ping => QueueKeeps(loop, i, Pong, clock);
      case WorkerRegister => RegisterKeeps(loop, i, clock);
      case Heartbeat(id) => HeartbeatKeeps(loop, i, id, now, clock);
      case JobSubmit(submission) => SubmitKeeps(loop, i, submission, clock);
      case JobStatusRequest(id) =>
        JobClientKeeps(loop, i);
        QueueKeeps(AsJobClient(loop, i), i, StatusReply(loop.store.jobs.jobs, id), clock);
      case StartedReport(_) => ReportKeeps(loop, i, m, clock);
      case CompletedReport(_, _) => ReportKeeps(loop, i, m, clock);
      case FailedReport(_, _) => ReportKeeps(loop, i, m, clock);
      case JobsRequest => ListingKeeps(loop, i, m, clock, config);
      case WorkersRequest => ListingKeeps(loop, i, m, clock, config);
      case StatsRequest => StatsKeeps(loop, i, clock, config);
      case _ => CloseKeeps(loop, i, clock);
    }
  }

  // ---------- reading, writing, accepting, scheduling ----------

  lemma FrameIsReader(c: Client)
    requires FrameOk(c) && c.fd >= 0 && c.phase == Reading
    ensures ReaderOk(c)
    ensures |c.input| >= WIRE_HEADER_SIZE ==> Allowed(DecodeFrameHeader(c.input).value.code, c)
  {}

  lemma ReaderIsFrame(c: Client)
    requires ReaderOk(c)
    requires |c.input| >= WIRE_HEADER_SIZE ==>
               DecodeFrameHeader(c.input).Ok? && Allowed(DecodeFrameHeader(c.input).value.code, c)
    ensures FrameOk(c)
  {}

  lemma PartialKeepsFrame(before: Client, chunk: bytes, now: i64)
    requires FrameOk(before) && before.fd >= 0 && before.phase == Reading
    requires |before.input| + |chunk| < before.expected
    ensures FrameOk(before.(input := before.input + chunk, lastProgress := now))
  {
    hide DecodeFrameHeader;
    if |before.input| >= WIRE_HEADER_SIZE {
      HeaderIgnoresRest(before.input, chunk);
    }
  }

  /** A full buffer asks for the rest of an allowed message, or holds one. */
  lemma FullFrame(before: Client, chunk: bytes, now: i64)
    requires FrameOk(before) && before.fd >= 0 && before.phase == Reading
    requires |before.input| + |chunk| == before.expected
    ensures var c := before.(input := before.input + chunk, lastProgress := now);
            && (FrameOf(c).More? ==> FrameOk(c.(expected := FrameOf(c).expected)))
            && (FrameOf(c).Whole? ==> Allowed(Code(FrameOf(c).message), c))
  {
    hide DecodeFrameHeader, DecodeMessage, EncodeMessage, Code;
    var c := before.(input := before.input + chunk, lastProgress := now);
    FrameIsReader(before);
    assert c.input[..|before.input|] == before.input;
    FrameReached(before, c);
    if |before.input| >= WIRE_HEADER_SIZE {
      HeaderIgnoresRest(before.input, chunk);
    }
    if FrameOf(c).Whole? {
      DecodedHeader(c.input, DecodeMessage(c.input).value);
    } else if FrameOf(c).More? {
      ReaderIsFrame(c.(expected := FrameOf(c).expected));
    }
  }

  lemma ReadKeeps(loop: Loop, i: nat, recv: Recv, now: i64, clock: Clock, config: Config)
    requires InService(loop) && LoopOk(loop) && i < |loop.clients|
    requires loop.clients[i].fd >= 0 && loop.clients[i].phase == Reading
    requires recv.Data? ==> 0 < |recv.chunk| <= loop.clients[i].expected - |loop.clients[i].input|
    ensures LoopOk(ReadMessage(loop, i, recv, now, clock, config))
  {
    hide Sane, FrameOk, CloseClient, HandleMessage, FrameOf, Allowed;
    match recv {
      case Eof => CloseKeeps(loop, i, clock);
      case RecvFailed => CloseKeeps(loop, i, clock);
      case RecvWait =>
      case Data(chunk) =>
        var before := loop.clients[i];
        assert FrameOk(before);
        var c := before.(input := before.input + chunk, lastProgress := now);
        UpdateKeeps(loop, i, c);
        if |c.input| < c.expected {
          PartialKeepsFrame(before, chunk, now);
        } else {
          FullFrame(before, chunk, now);
          match FrameOf(c) {
            case Broken => CloseKeeps(WithClient(loop, i, c), i, clock);
            case More(expected) => UpdateKeeps(loop, i, c.(expected := expected));
            case Whole(m) => HandleKeeps(WithClient(loop, i, c), i, m, now, clock, config);
          }
        }
    }
  }

  lemma WriteKeeps(loop: Loop, i: nat, send: Send, now: i64, clock: Clock)
    requires InService(loop) && LoopOk(loop) && i < |loop.clients| && loop.clients[i].phase == Writing
    ensures LoopOk(WriteReply(loop, i, send, now, clock))
  {
    hide Sane, FrameOk, CloseClient;
    match send {
      case SendFailed => CloseKeeps(loop, i, clock);
      case SendWait =>
      case Sent(n) =>
        if n == 0 {
          CloseKeeps(loop, i, clock);
        } else {
          var c := loop.clients[i].(sent := loop.clients[i].sent + n, lastProgress := now);
          FreshFrame(c);
          WritingFrame(c);
          UpdateKeeps(loop, i, ResetInput(c));
          UpdateKeeps(loop, i, c);
        }
    }
  }

  lemma TurnKeeps(loop: Loop, i: nat, poll: Poll, now: i64, clock: Clock, config: Config)
    requires InService(loop) && LoopOk(loop) && i < |loop.clients|
    requires poll.Readable? && poll.recv.Data? && loop.clients[i].phase == Reading ==>
               0 < |poll.recv.chunk| <= loop.clients[i].expected - |loop.clients[i].input|
    ensures LoopOk(Turn(loop, i, poll, now, clock, config))
  {
    hide Sane, FrameOk, CloseClient, ReadMessage, WriteReply, HeartbeatMissed;
    var c := loop.clients[i];
    CloseKeeps(loop, i, clock);
    if c.fd >= 0 {
      if c.phase == Reading && poll.Readable? {
        ReadKeeps(loop, i, poll.recv, now, clock, config);
      } else if c.phase == Writing && poll.Writable? {
        WriteKeeps(loop, i, poll.send, now, clock);
      }
      var served := Serve(loop, i, poll, now, clock, config);
      if InService(served) {
        CloseKeeps(served, i, clock);
      } else if !served.killed {
        ClosingStaysDown(served, i, clock);
      }
    }
  }

  /** Once a failure is latched the loop does not recover from it. */
  lemma ClosingStaysDown(loop: Loop, i: nat, clock: Clock)
    requires i < |loop.clients| && loop.store.fault != NoFault
    ensures CloseClient(loop, i, clock).store.fault != NoFault
  {
    hide Perform, MarkDead;
  }

  lemma AcceptKeeps(loop: Loop, fd: int, now: i64)
    requires InService(loop) && LoopOk(loop)
    requires fd >= 0 && forall k :: 0 <= k < |loop.clients| ==> loop.clients[k].fd != fd
    ensures LoopOk(Accept(loop, fd, now))
  {
    hide Durable, LeasesAlive, AliveOn, FrameOk, RegistryOk;
    var slot := FreeClient(loop.clients);
    if slot < |loop.clients| {
      var d := Client(fd, Reading, 0, false, [], WIRE_HEADER_SIZE, [], 0, now);
      NewFrame(d);
      DurableRegistry(loop.store, loop.disk.file);
      AcceptBinds(loop.clients, loop.store.workers, slot, d);
    }
  }

  lemma NewFrame(c: Client)
    requires c.input == [] && c.expected == WIRE_HEADER_SIZE
    ensures FrameOk(c)
  {}

  lemma AcceptBinds(clients: seq<Client>, registry: Registry, i: nat, d: Client)
    requires Bindings(clients, registry) && RegistryOk(registry) && i < |clients| && clients[i].fd < 0
    requires d.workerId == 0 && forall k :: 0 <= k < |clients| ==> clients[k].fd != d.fd
    ensures Bindings(clients[i := d], registry)
  {
    hide AliveOn;
    var after := clients[i := d];
    assert Bound(clients[i], registry);
    forall s | 0 <= s < |registry.workers| && registry.workers[s].state == Alive
        ensures HasOwner(after, registry.workers[s]) {
      var k :| 0 <= k < |clients| && OwnedBy(clients[k], registry.workers[s]);
      assert Used(registry.workers[s]);
      assert k != i;
      assert OwnedBy(after[k], registry.workers[s]);
    }
  }

  /** Under the guards of the scheduler an assignment is never rejected and never finds
      the queue empty: it is committed, or the run ends. */
  lemma AssignmentCommitsOrEnds(loop: Loop, i: nat, now: i64, config: Config)
    requires InService(loop) && Sane(loop) && i < |loop.clients|
    requires loop.store.jobs.pending != [] && ReadyForWork(loop, i, now, config)
    ensures Perform(loop, AssignJob(loop.clients[i].workerId, now)).0 in {StoreOk, Fatal, Killed}
  {
    hide Bindings, LeasesAlive, Durable, ActiveSlot, WorkerSlot, JobTime, FindSlot, Mirrors, SchedulerOk, RegistryOk;
    var store := loop.store;
    var id := loop.clients[i].workerId;
    DurableMirrors(store, loop.disk.file);
    ExecuteOutcome(store, loop.disk, AssignJob(id, now));
    GuardedAssign(store, Replay(loop.disk.file).value.history, id, now);
  }

  lemma GuardedAssign(store: Store, h: History, id: u32, now: i64)
    requires Mirrors(store, h) && store.jobs.pending != [] && IsAlive(store.workers, id)
    requires ActiveSlot(store.jobs.jobs, id) == |store.jobs.jobs|
    ensures PlanAssign(store, id, now) != Refuse(Rejected, NoFault)
        && PlanAssign(store, id, now) != Refuse(NothingToDo, NoFault)
  {
    hide Mirrors, IsAlive, ActiveSlot, FindSlot, JobTime, Assign;
  }

  lemma ScheduleKeeps(loop: Loop, i: nat, now: i64, clock: Clock, config: Config)
    requires InService(loop) && LoopOk(loop) && i < |loop.clients|
    ensures LoopOk(Schedule(loop, i, now, clock, config))
  {
    hide Sane, FrameOk, Perform, QueueMessage, PlanFor, ReadyForWork;
    if loop.store.jobs.pending != [] && now >= 0 && ReadyForWork(loop, i, now, config) {
      var op := AssignJob(loop.clients[i].workerId, now);
      PerformKeeps(loop, i, op);
      var done := Perform(loop, op);
      if done.0 == StoreOk {
        forall m: Message ensures LoopOk(QueueMessage(done.1, i, m, clock)) {
          QueueKeeps(done.1, i, m, clock);
        }
      }
    }
  }

  // ---------- every run ----------

  lemma NewScript(loop: Loop, script: seq<Io>)
    requires LoopOk(loop)
    ensures LoopOk(loop.(disk := Disk(loop.disk.file, script)))
  {
    hide Durable, LeasesAlive, Bindings, FramesOk;
  }

  lemma ReactKeeps(loop: Loop, event: Event, config: Config)
    requires LoopOk(loop) && Possible(loop, event)
    ensures LoopOk(React(loop, event, config))
  {
    hide LoopOk, Turn, Schedule;
    if InService(loop) {
      match event {
        case Accepted(fd, now) => AcceptKeeps(loop, fd, now);
        case Polled(i, poll, now, clock, script) =>
          NewScript(loop, script);
          TurnKeeps(loop.(disk := Disk(loop.disk.file, script)), i, poll, now, clock, config);
        case Scheduled(i, now, clock, script) =>
          NewScript(loop, script);
          ScheduleKeeps(loop.(disk := Disk(loop.disk.file, script)), i, now, clock, config);
      }
    }
  }

  function RunLoop(loop: Loop, events: seq<Event>, config: Config): Loop {
    if events == [] then loop
    else React(RunLoop(loop, events[..|events| - 1], config), events[|events| - 1], config)
  }

  predicate AllPossible(loop: Loop, events: seq<Event>, config: Config) {
    forall n :: 0 <= n < |events| ==> Possible(RunLoop(loop, events[..n], config), events[n])
  }

  lemma {:induction false} RunLoopKeeps(loop: Loop, events: seq<Event>, config: Config)
    requires LoopOk(loop) && AllPossible(loop, events, config)
    ensures LoopOk(RunLoop(loop, events, config))
    decreases |events|
  {
    hide LoopOk, React, Possible;
    if events != [] {
      var n := |events| - 1;
      forall k | 0 <= k < n ensures events[..n][..k] == events[..k] {}
      RunLoopKeeps(loop, events[..n], config);
      ReactKeeps(RunLoop(loop, events[..n], config), events[n], config);
    }
  }

  /** The loop as `run_coordinator` starts it: a freshly opened store and no client. */
  function StartLoop(store: Store, file: bytes): Loop {
    Loop(seq(MAX_CLIENTS, _ => Client(-1, Reading, 0, false, [], 0, [], 0, 0)), store, Disk(file, []), false)
  }

  /** Reconciliation does not touch the (empty) registry. */
  lemma {:induction false} ReconcileKeepsWorkers(store: Store, disk: Disk, i: nat, now: i64)
    ensures Reconcile(store, disk, i, now).store.workers == store.workers
    decreases STORE_CAPACITY - i
  {
    hide PlanLoss, Append;
    if i < |store.jobs.jobs| && i < STORE_CAPACITY {
      if !IsActive(store.jobs.jobs[i]) {
        ReconcileKeepsWorkers(store, disk, i + 1, now);
      } else {
        var worker := store.jobs.jobs[i].workerId;
        LossKeepsWorkers(store, worker, now);
        var step := Carry(store, disk, PlanLoss(store, worker, now));
        ReconcileKeepsWorkers(step.store.(interrupted := step.store.interrupted + 1), step.disk, i + 1, now);
      }
    }
  }

  lemma LossKeepsWorkers(store: Store, workerId: u32, now: i64)
    ensures PlanLoss(store, workerId, now).Commit? ==> PlanLoss(store, workerId, now).workers == store.workers
  {
    hide LoseWorker, ActiveSlot, FindSlot, JobTime;
  }

  /** A successful startup hands the loop a store without live workers or leases. */
  lemma OpenedIsQuiet(disk: Disk, now: i64, read: IoStatus)
    requires Replay(disk.file).Ok? && OpenExisting(disk, now, read).result == StoreOk
    ensures var open := OpenExisting(disk, now, read);
            && open.store.Some? && Durable(open.store.value, open.disk.file)
            && (forall s :: 0 <= s < |open.store.value.workers.workers| ==>
              open.store.value.workers.workers[s].state == Unused)
            && (forall k :: 0 <= k < |open.store.value.jobs.jobs| ==> !IsActive(open.store.value.jobs.jobs[k]))
  {
    hide Replay, HistoryOk, Settle, Reconcile, Repair, RegistryOk, EmptyRegistry;
    var open := OpenExisting(disk, now, read);
    OpenOutcome(disk, now, read);
    var h := Replay(disk.file).value.history;
    SufficientToSettle(h);
    SettleEffect(h);
    ReconcileKeepsWorkers(Recovered(h, now), Repair(disk).1, 0, now);
    assert open.store.value.workers == EmptyRegistry(h.nextWorkerId);
  }

  lemma StartLoopOk(store: Store, file: bytes)
    requires Durable(store, file)
    requires forall s :: 0 <= s < |store.workers.workers| ==> store.workers.workers[s].state == Unused
    requires forall k :: 0 <= k < |store.jobs.jobs| ==> !IsActive(store.jobs.jobs[k])
    ensures LoopOk(StartLoop(store, file))
  {
    hide Durable, AliveId, AliveOn;
  }

  /** Connection `i` is the open connection of live worker `id`. */
  predicate ServedBy(loop: Loop, id: u32, i: nat) {
    && i < |loop.clients| && loop.clients[i].fd >= 0 && loop.clients[i].workerId == id
    && LiveConnection(loop.store.workers, id, loop.clients[i].fd).Ok?
  }

  /** The lease of every active job is held by a live worker on exactly one open
      connection; no connection is both worker and job client; and every connection
      that is being read holds fewer bytes than it expects, within its buffer. */
  ghost predicate NothingOrphaned(loop: Loop) {
    && (forall k :: 0 <= k < |loop.store.jobs.jobs| && IsActive(loop.store.jobs.jobs[k]) ==>
          var id := loop.store.jobs.jobs[k].workerId;
          && IsAlive(loop.store.workers, id)
          && (exists i: nat :: ServedBy(loop, id, i) && forall j: nat :: ServedBy(loop, id, j) ==> j == i))
    && (forall i :: 0 <= i < |loop.clients| ==> !(loop.clients[i].workerId != 0 && loop.clients[i].jobClient))
    && (forall i :: 0 <= i < |loop.clients| && loop.clients[i].fd >= 0 && loop.clients[i].phase == Reading ==>
          |loop.clients[i].input| < loop.clients[i].expected <= MAX_FRAME_SIZE)
  }

  lemma LeaseServed(loop: Loop, k: nat)
    requires Sane(loop) && k < |loop.store.jobs.jobs| && IsActive(loop.store.jobs.jobs[k])
    ensures var id := loop.store.jobs.jobs[k].workerId;
            && IsAlive(loop.store.workers, id)
            && (exists i: nat :: ServedBy(loop, id, i) && forall j: nat :: ServedBy(loop, id, j) ==> j == i)
  {
    hide Durable, AliveOn, WorkerSlot;
    var registry := loop.store.workers;
    var id := loop.store.jobs.jobs[k].workerId;
    DurableRegistry(loop.store, loop.disk.file);
    AliveIds(registry, id);
    var s :| 0 <= s < |registry.workers| && registry.workers[s].state == Alive && registry.workers[s].id == id;
    var i: nat :| i < |loop.clients| && OwnedBy(loop.clients[i], registry.workers[s]);
    assert Used(registry.workers[s]);
    assert Bound(loop.clients[i], registry);
    AliveConnection(registry, id, loop.clients[i].fd);
    assert ServedBy(loop, id, i);
    forall j: nat | ServedBy(loop, id, j) ensures j == i {
      if j != i {
        OtherWorker(loop.clients, registry, i, j);
      }
    }
  }

  /** A startup on a log that replays, or on a new one. */
  ghost predicate Startup(open: Opening) {
    || (exists disk: Disk, now, read :: Replay(disk.file).Ok? && open == OpenExisting(disk, now, read))
    || (exists script, now :: open == CreateNew(script, now))
  }

  /** Creating a log that succeeds leaves the header and nothing else. */
  lemma CreateWrites(script: seq<Io>, now: i64)
    requires CreateNew(script, now).result == StoreOk
    ensures var open := CreateNew(script, now);
            open.disk.file == FileHeader() && open.store == Some(Recovered(EmptyHistory(), now).(isOpen := true))
  {
    hide FileHeader, WriteAll, Sync, Recovered;
    var written := WriteAll(Disk([], script), FileHeader());
    WriteAllPrefix(Disk([], script), FileHeader());
    var k :| 0 <= k <= |FileHeader()| && written.1.file == [] + FileHeader()[..k]
        && (written.0 == IoOk ==> k == |FileHeader()|);
    assert written.1.file == FileHeader()[..k];
    SyncKeepsFile(written.1);
    SyncKeepsFile(Sync(written.1).1);
  }

  /** What a creation leaves, however it is interrupted: a prefix of the file header,
      which replays, to the empty history, exactly if it is the whole header. */
  lemma CreationLeavesPrefix(script: seq<Io>, now: i64)
    ensures var file := CreateNew(script, now).disk.file;
            && file <= FileHeader()
            && (Replay(file).Ok? <==> file == FileHeader())
            && (Replay(file).Ok? ==> Replay(file).value == Replayed(EmptyHistory(), 0))
            && (CreateNew(script, now).result == StoreOk ==> file == FileHeader())
  {
    hide FileHeader, WriteAll, Sync, Recovered, ReplayLog, DecodeFileHeader;
    var written := WriteAll(Disk([], script), FileHeader());
    WriteAllPrefix(Disk([], script), FileHeader());
    var k :| 0 <= k <= |FileHeader()| && written.1.file == [] + FileHeader()[..k]
             && (written.0 == IoOk ==> k == |FileHeader()|);
    assert written.1.file == FileHeader()[..k];
    SyncKeepsFile(written.1);
    SyncKeepsFile(Sync(written.1).1);
    var file := CreateNew(script, now).disk.file;
    assert file <= FileHeader();
    NewLog();
    if |file| == |FileHeader()| {
      assert file == FileHeader();
    } else {
      ShortHeader(file);
    }
  }

  lemma ShortHeader(file: bytes)
    requires |file| < |FileHeader()|
    ensures Replay(file).Err?
  {
    hide ReplayLog, Sealed;
  }

  lemma CreatedIsQuiet(script: seq<Io>, now: i64)
    requires CreateNew(script, now).result == StoreOk
    ensures var open := CreateNew(script, now);
            && open.store.Some? && Durable(open.store.value, open.disk.file)
            && open.store.value.workers == EmptyRegistry(1) && open.store.value.jobs == Initial()
  {
    hide Replay, HistoryOk, RegistryOk, EmptyRegistry, FileHeader, CreateNew;
    CreateWrites(script, now);
    NewLog();
    EmptyHistoryOk();
    EmptyRegistryOk(1);
    NobodyIssued();
    var store := Recovered(EmptyHistory(), now).(isOpen := true);
    assert Mirrors(store, EmptyHistory());
    assert Holds(FileHeader(), EmptyHistory());
  }

  lemma NobodyIssued()
    ensures WorkersIssued(EmptyRegistry(1), EmptyHistory()) && EmptyRegistry(1).nextWorkerId == 1
  {}

  lemma NewLog()
    ensures Holds(FileHeader(), EmptyHistory())
  {
    FileHeaderDecodes([]);
    assert FileHeader() + [] == FileHeader();
  }

  /** No orphaned lease: from any successful startup, through every possible sequence of
      events with any clock readings and any storage behaviour, as long as no failure
      is latched. */
  lemma NoOrphanedLease(open: Opening, events: seq<Event>, config: Config)
    requires Startup(open) && open.result == StoreOk
    requires open.store.Some? && AllPossible(StartLoop(open.store.value, open.disk.file), events, config)
    ensures var loop := RunLoop(StartLoop(open.store.value, open.disk.file), events, config);
            InService(loop) ==> NothingOrphaned(loop)
  {
    hide Startup, RunLoop, AllPossible, StartLoop, LoopOk, NothingOrphaned;
    ReachedIsOk(open, events, config);
    if InService(RunLoop(StartLoop(open.store.value, open.disk.file), events, config)) {
      SaneMeans(RunLoop(StartLoop(open.store.value, open.disk.file), events, config));
    }
  }

  lemma OpenedLoopOk(open: Opening)
    requires Startup(open) && open.result == StoreOk && open.store.Some?
    ensures LoopOk(StartLoop(open.store.value, open.disk.file))
  {
    hide Replay, OpenExisting, CreateNew, StartLoop, Durable, EmptyRegistry, LoopOk;
    if disk: Disk, now, read :| Replay(disk.file).Ok? && open == OpenExisting(disk, now, read) {
      OpenedIsQuiet(disk, now, read);
    } else {
      var script, now :| open == CreateNew(script, now);
      CreatedIsQuiet(script, now);
    }
    StartLoopOk(open.store.value, open.disk.file);
  }

  /** Every loop reached from a startup keeps the invariant. */
  lemma ReachedIsOk(open: Opening, events: seq<Event>, config: Config)
    requires Startup(open) && open.result == StoreOk
    requires open.store.Some? && AllPossible(StartLoop(open.store.value, open.disk.file), events, config)
    ensures LoopOk(RunLoop(StartLoop(open.store.value, open.disk.file), events, config))
  {
    hide Startup, RunLoop, AllPossible, StartLoop, LoopOk;
    OpenedLoopOk(open);
    RunLoopKeeps(StartLoop(open.store.value, open.disk.file), events, config);
  }

  /** Under the guards of `schedule_jobs`, in every run, an assignment is committed or
      ends the run; it is never rejected and never finds nothing to do. */
  lemma AssignmentInEveryRun(open: Opening, events: seq<Event>, config: Config, i: nat, now: i64)
    requires Startup(open) && open.result == StoreOk
    requires open.store.Some? && AllPossible(StartLoop(open.store.value, open.disk.file), events, config)
    requires var loop := RunLoop(StartLoop(open.store.value, open.disk.file), events, config);
             && InService(loop) && i < |loop.clients|
             && loop.store.jobs.pending != [] && ReadyForWork(loop, i, now, config)
    ensures var loop := RunLoop(StartLoop(open.store.value, open.disk.file), events, config);
            Perform(loop, AssignJob(loop.clients[i].workerId, now)).0 in {StoreOk, Fatal, Killed}
  {
    hide Startup, RunLoop, AllPossible, StartLoop, Sane, Perform, ReadyForWork;
    ReachedIsOk(open, events, config);
    AssignmentCommitsOrEnds(RunLoop(StartLoop(open.store.value, open.disk.file), events, config), i, now, config);
  }

  lemma SaneMeans(loop: Loop)
    requires LoopOk(loop) && InService(loop)
    ensures NothingOrphaned(loop)
  {
    hide Durable, LeasesAlive, AliveOn, IsAlive, ServedBy;
    forall k: nat | k < |loop.store.jobs.jobs| && IsActive(loop.store.jobs.jobs[k])
      ensures IsAlive(loop.store.workers, loop.store.jobs.jobs[k].workerId)
      ensures exists i: nat :: ServedBy(loop, loop.store.jobs.jobs[k].workerId, i)
                && forall j: nat :: ServedBy(loop, loop.store.jobs.jobs[k].workerId, j) ==> j == i
    {
      LeaseServed(loop, k);
    }
    forall i | 0 <= i < |loop.clients| ensures FrameOk(loop.clients[i]) && Bound(loop.clients[i], loop.store.workers) {}
  }
}
