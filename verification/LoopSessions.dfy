/** Every run of the event loop is a run of sessions: a handler changes the store and
    its log only through store operations and updates of the live registry.  What is
    proved about sessions therefore holds of the loop, also once it has ended. */
module LoopSessions {
  import opened Base
  import opened Messages
  import opened SchedulerModel
  import opened RegistryModel
  import opened WriterModel
  import opened ReplayModel
  import opened StoreModel
  import opened StartupModel
  import opened Durability
  import opened Lifetime
  import opened Sessions
  import opened Protocol
  import opened Listings
  import opened Statistics
  import opened EventLoop
  import opened Leases
  import opened LoopSafety

  /** The log, the process and what is published, as the loop has them. */
  function WorldOf(loop: Loop): World {
    World(loop.disk.file, if loop.killed then None else Some(loop.store), PublishedBy(loop.store))
  }

  /** Some actions lead from one to the other. */
  ghost predicate Moves(a: Loop, b: Loop) {
    exists actions :: Run(WorldOf(a), actions) == WorldOf(b)
  }

  lemma {:induction false} RunAppend(world: World, a: seq<Action>, b: seq<Action>)
    ensures Run(Run(world, a), b) == Run(world, a + b)
    decreases |b|
  {
    hide Next;
    if b == [] {
      assert a + b == a;
    } else {
      var n := |b| - 1;
      RunAppend(world, a, b[..n]);
      assert (a + b)[..|a + b| - 1] == a + b[..n];
    }
  }

  lemma MovesOn(a: Loop, b: Loop, c: Loop)
    requires Moves(a, b) && Moves(b, c)
    ensures Moves(a, c)
  {
    hide Run;
    var x :| Run(WorldOf(a), x) == WorldOf(b);
    var y :| Run(WorldOf(b), y) == WorldOf(c);
    RunAppend(WorldOf(a), x, y);
  }

  lemma MovesInPlace(a: Loop, b: Loop)
    requires WorldOf(a) == WorldOf(b)
    ensures Moves(a, b)
  {
    assert Run(WorldOf(a), []) == WorldOf(b);
  }

  lemma MovesBy(a: Loop, b: Loop, action: Action)
    requires Next(WorldOf(a), action) == WorldOf(b)
    ensures Moves(a, b)
  {
    hide Next;
    assert [action][..0] == [];
    assert Run(WorldOf(a), [action][..0]) == WorldOf(a);
    assert Run(WorldOf(a), [action]) == WorldOf(b);
  }

  lemma PerformMoves(loop: Loop, op: Operation)
    requires !loop.killed
    ensures Moves(loop, Perform(loop, op).1)
  {
    hide Execute, Moves;
    MovesBy(loop, Perform(loop, op).1, Do(op, loop.disk.script));
  }

  lemma BuryMoves(loop: Loop, id: u32, fd: int)
    requires !loop.killed
    ensures Moves(loop, loop.(store := loop.store.(workers := Buried(loop.store.workers, id, fd))))
  {
    hide Moves, LiveConnection;
    MovesBy(loop, loop.(store := loop.store.(workers := Buried(loop.store.workers, id, fd))), Bury(id, fd));
  }

  lemma BeatMoves(loop: Loop, id: u32, fd: int, now: i64)
    requires !loop.killed && RecordHeartbeat(loop.store.workers, id, fd, now).Ok?
    ensures Moves(loop, loop.(store := loop.store.(workers := RecordHeartbeat(loop.store.workers, id, fd, now).value)))
  {
    hide Moves, LiveConnection;
    MovesBy(loop, loop.(store := loop.store.(workers := RecordHeartbeat(loop.store.workers, id, fd, now).value)),
        Beat(id, fd, now));
  }

  // ---------- the handlers ----------

  lemma CloseMoves(loop: Loop, i: nat, clock: Clock)
    requires !loop.killed && i < |loop.clients|
    ensures Moves(loop, CloseClient(loop, i, clock))
  {
    hide Moves, Perform, ActiveSlot, Buried;
    var c, after := loop.clients[i], CloseClient(loop, i, clock);
    if c.workerId == 0 {
      MovesInPlace(loop, after);
    } else {
      var holds := ActiveSlot(loop.store.jobs.jobs, c.workerId) < |loop.store.jobs.jobs|;
      var lost := if holds && loop.store.fault == NoFault then Perform(loop, LoseWorkerOf(c.workerId, clock.loss)).1
          else loop;
      MovesInPlace(loop, loop);
      PerformMoves(loop, LoseWorkerOf(c.workerId, clock.loss));
      if !lost.killed {
        BuryMoves(lost, c.workerId, c.fd);
        var buried := lost.(store := lost.store.(workers := Buried(lost.store.workers, c.workerId, c.fd)));
        MovesInPlace(buried, after);
        MovesOn(loop, lost, buried);
        MovesOn(loop, buried, after);
      }
    }
  }

  lemma QueueMoves(loop: Loop, i: nat, m: Message, clock: Clock)
    requires !loop.killed && i < |loop.clients|
    ensures Moves(loop, QueueMessage(loop, i, m, clock))
  {
    hide Moves, CloseClient, EncodeMessage;
    CloseMoves(loop, i, clock);
    if EncodeMessage(m, MAX_FRAME_SIZE).Ok? && clock.reply >= 0 {
      MovesInPlace(loop, QueueMessage(loop, i, m, clock));
    }
  }

  /** A change of client `i`, then a reply or the end of the connection. */
  lemma AnswerMoves(loop: Loop, i: nat, c: Client, m: Message, clock: Clock)
    requires !loop.killed && i < |loop.clients|
    ensures Moves(loop, QueueMessage(WithClient(loop, i, c), i, m, clock))
    ensures Moves(loop, CloseClient(WithClient(loop, i, c), i, clock))
  {
    hide Moves, CloseClient, QueueMessage;
    var changed := WithClient(loop, i, c);
    MovesInPlace(loop, changed);
    QueueMoves(changed, i, m, clock);
    CloseMoves(changed, i, clock);
    MovesOn(loop, changed, QueueMessage(changed, i, m, clock));
    MovesOn(loop, changed, CloseClient(changed, i, clock));
  }

  lemma RegisterMoves(loop: Loop, i: nat, clock: Clock)
    requires !loop.killed && i < |loop.clients|
    ensures Moves(loop, HandleRegister(loop, i, clock))
  {
    hide Moves, CloseClient, QueueMessage, Execute;
    var c := loop.clients[i];
    CloseMoves(loop, i, clock);
    if !c.jobClient {
      var id := loop.store.workers.nextWorkerId;
      var done := Perform(loop, RegisterWorker(c.fd, clock.op));
      PerformMoves(loop, RegisterWorker(c.fd, clock.op));
      if done.0 != Killed {
        CloseMoves(done.1, i, clock);
        AnswerMoves(done.1, i, c.(workerId := id), WorkerRegisterAck(id), clock);
        MovesOn(loop, done.1, HandleRegister(loop, i, clock)) by {
          MovesInPlace(done.1, done.1);
        }
      }
    }
  }

  lemma HeartbeatMoves(loop: Loop, i: nat, id: u32, now: i64, clock: Clock)
    requires !loop.killed && i < |loop.clients|
    ensures Moves(loop, HandleHeartbeat(loop, i, id, now, clock))
  {
    hide Moves, CloseClient, RecordHeartbeat;
    var c := loop.clients[i];
    CloseMoves(loop, i, clock);
    if c.workerId != 0 && id == c.workerId && RecordHeartbeat(loop.store.workers, id, c.fd, now).Ok? {
      BeatMoves(loop, id, c.fd, now);
      var beaten := loop.(store := loop.store.(workers := RecordHeartbeat(loop.store.workers, id, c.fd, now).value));
      MovesInPlace(beaten, HandleHeartbeat(loop, i, id, now, clock));
      MovesOn(loop, beaten, HandleHeartbeat(loop, i, id, now, clock));
    }
  }

  lemma SubmitMoves(loop: Loop, i: nat, submission: Submission, clock: Clock)
    requires !loop.killed && i < |loop.clients|
    ensures Moves(loop, HandleSubmit(loop, i, submission, clock))
  {
    hide Moves, CloseClient, QueueMessage, Execute;
    CloseMoves(loop, i, clock);
    if loop.clients[i].workerId == 0 {
      var id := loop.store.jobs.nextJobId;
      var done := Perform(loop, SubmitJob(submission, clock.op));
      PerformMoves(loop, SubmitJob(submission, clock.op));
      if done.0 != Killed {
        CloseMoves(done.1, i, clock);
        AnswerMoves(done.1, i, done.1.clients[i].(jobClient := true), JobSubmitAck(id), clock);
        MovesInPlace(done.1, done.1);
        MovesOn(loop, done.1, HandleSubmit(loop, i, submission, clock));
      }
    }
  }

  lemma ReportMoves(loop: Loop, i: nat, report: Message, clock: Clock)
    requires !loop.killed && i < |loop.clients|
    ensures Moves(loop, HandleReport(loop, i, report, clock))
  {
    hide Moves, CloseClient, Execute;
    var c := loop.clients[i];
    var done := Perform(loop, ReportJob(c.workerId, report, clock.op));
    PerformMoves(loop, ReportJob(c.workerId, report, clock.op));
    if done.0 != Killed {
      CloseMoves(done.1, i, clock);
      MovesInPlace(done.1, WithClient(done.1, i, ResetInput(c)));
      MovesInPlace(done.1, done.1);
      MovesOn(loop, done.1, HandleReport(loop, i, report, clock));
    }
  }

  lemma QueryMoves(loop: Loop, i: nat, request: Message, clock: Clock, config: Config)
    requires !loop.killed && i < |loop.clients|
    ensures Moves(loop, HandleListing(loop, i, request, clock, config))
        && Moves(loop, HandleStats(loop, i, clock, config))
  {
    hide Moves, CloseClient, QueueMessage, JobListing, WorkerListing, Snapshot;
    CloseMoves(loop, i, clock);
    var asked := loop.clients[i].(jobClient := true);
    forall m: Message
      ensures Moves(loop, QueueMessage(WithClient(loop, i, asked), i, m, clock))
      ensures Moves(loop, CloseClient(WithClient(loop, i, asked), i, clock))
    {
      AnswerMoves(loop, i, asked, m, clock);
    }
    AnswerMoves(loop, i, asked, Pong, clock);
  }

  lemma HandleMoves(loop: Loop, i: nat, m: Message, now: i64, clock: Clock, config: Config)
    requires !loop.killed && i < |loop.clients|
    ensures Moves(loop, HandleMessage(loop, i, m, now, clock, config))
  {
    hide Moves, CloseClient, QueueMessage, HandleRegister, HandleHeartbeat, HandleSubmit, HandleReport, HandleListing,
         HandleStats, StatusReply;
    match m {
      case Ping => QueueMoves(loop, i, Pong, clock);
      case WorkerRegister => RegisterMoves(loop, i, clock);
      case Heartbeat(id) => HeartbeatMoves(loop, i, id, now, clock);
      case JobSubmit(submission) => SubmitMoves(loop, i, submission, clock);
      case JobStatusRequest(id) =>
        AnswerMoves(loop, i, loop.clients[i].(jobClient := true), StatusReply(loop.store.jobs.jobs, id), clock);
      case StartedReport(_) => ReportMoves(loop, i, m, clock);
      case CompletedReport(_, _) => ReportMoves(loop, i, m, clock);
      case FailedReport(_, _) => ReportMoves(loop, i, m, clock);
      case JobsRequest => QueryMoves(loop, i, m, clock, config);
      case WorkersRequest => QueryMoves(loop, i, m, clock, config);
      case StatsRequest => QueryMoves(loop, i, m, clock, config);
      case _ => CloseMoves(loop, i, clock);
    }
  }

  lemma ReadMoves(loop: Loop, i: nat, recv: Recv, now: i64, clock: Clock, config: Config)
    requires !loop.killed && i < |loop.clients|
    ensures Moves(loop, ReadMessage(loop, i, recv, now, clock, config))
  {
    hide Moves, CloseClient, HandleMessage, FrameOf;
    match recv {
      case Eof => CloseMoves(loop, i, clock);
      case RecvFailed => CloseMoves(loop, i, clock);
      case RecvWait => MovesInPlace(loop, loop);
      case Data(chunk) =>
        var c := loop.clients[i].(input := loop.clients[i].input + chunk, lastProgress := now);
        var got := WithClient(loop, i, c);
        MovesInPlace(loop, got);
        if |c.input| >= c.expected {
          match FrameOf(c) {
            case Broken =>
              CloseMoves(got, i, clock);
              MovesOn(loop, got, CloseClient(got, i, clock));
            case More(expected) => MovesInPlace(loop, WithClient(loop, i, c.(expected := expected)));
            case Whole(m) =>
              HandleMoves(got, i, m, now, clock, config);
              MovesOn(loop, got, HandleMessage(got, i, m, now, clock, config));
          }
        }
    }
  }

  lemma WriteMoves(loop: Loop, i: nat, send: Send, now: i64, clock: Clock)
    requires !loop.killed && i < |loop.clients|
    ensures Moves(loop, WriteReply(loop, i, send, now, clock))
  {
    hide Moves, CloseClient;
    CloseMoves(loop, i, clock);
    MovesInPlace(loop, loop);
    if send.Sent? && send.count != 0 {
      MovesInPlace(loop, WriteReply(loop, i, send, now, clock));
    }
  }

  lemma TurnMoves(loop: Loop, i: nat, poll: Poll, now: i64, clock: Clock, config: Config)
    requires !loop.killed && i < |loop.clients|
    ensures Moves(loop, Turn(loop, i, poll, now, clock, config))
  {
    hide Moves, CloseClient, ReadMessage, WriteReply, HeartbeatMissed;
    CloseMoves(loop, i, clock);
    MovesInPlace(loop, loop);
    if poll.Readable? {
      ReadMoves(loop, i, poll.recv, now, clock, config);
    } else if poll.Writable? {
      WriteMoves(loop, i, poll.send, now, clock);
    }
    var served := Serve(loop, i, poll, now, clock, config);
    if !served.killed {
      CloseMoves(served, i, clock);
      MovesOn(loop, served, CloseClient(served, i, clock));
    }
  }

  lemma ScheduleMoves(loop: Loop, i: nat, now: i64, clock: Clock, config: Config)
    requires !loop.killed && i < |loop.clients|
    ensures Moves(loop, Schedule(loop, i, now, clock, config))
  {
    hide Moves, QueueMessage, Execute, ReadyForWork, FindSlot;
    MovesInPlace(loop, loop);
    var op := AssignJob(loop.clients[i].workerId, now);
    var done := Perform(loop, op);
    PerformMoves(loop, op);
    if done.0 == StoreOk {
      forall m: Message ensures Moves(loop, QueueMessage(done.1, i, m, clock)) {
        QueueMoves(done.1, i, m, clock);
        MovesOn(loop, done.1, QueueMessage(done.1, i, m, clock));
      }
    }
  }

  lemma ReactMoves(loop: Loop, event: Event, config: Config)
    ensures Moves(loop, React(loop, event, config))
  {
    hide Moves, Turn, Schedule;
    MovesInPlace(loop, loop);
    if InService(loop) {
      match event {
        case Accepted(fd, now) => MovesInPlace(loop, Accept(loop, fd, now));
        case Polled(i, poll, now, clock, script) =>
          if i < |loop.clients| {
            var fed := loop.(disk := Disk(loop.disk.file, script));
            MovesInPlace(loop, fed);
            TurnMoves(fed, i, poll, now, clock, config);
            MovesOn(loop, fed, Turn(fed, i, poll, now, clock, config));
          }
        case Scheduled(i, now, clock, script) =>
          if i < |loop.clients| {
            var fed := loop.(disk := Disk(loop.disk.file, script));
            MovesInPlace(loop, fed);
            ScheduleMoves(fed, i, now, clock, config);
            MovesOn(loop, fed, Schedule(fed, i, now, clock, config));
          }
      }
    }
  }

  /** Every run of the loop is a run of sessions. */
  lemma {:induction false} LoopIsSession(loop: Loop, events: seq<Event>, config: Config)
    ensures Moves(loop, RunLoop(loop, events, config))
    decreases |events|
  {
    hide Moves, React;
    if events == [] {
      MovesInPlace(loop, loop);
    } else {
      var n := |events| - 1;
      LoopIsSession(loop, events[..n], config);
      ReactMoves(RunLoop(loop, events[..n], config), events[n], config);
      MovesOn(loop, RunLoop(loop, events[..n], config), RunLoop(loop, events, config));
    }
  }

  lemma MovesKeepOk(a: Loop, b: Loop)
    requires Moves(a, b) && WorldOk(WorldOf(a))
    ensures WorldOk(WorldOf(b)) && StoreProgresses(a.store.jobs.jobs, b.store.jobs.jobs)
  {
    hide WorldOk, Run, StoreProgresses;
    var actions :| Run(WorldOf(a), actions) == WorldOf(b);
    RunKeepsOk(WorldOf(a), actions);
  }

  lemma StartIsOk(open: Opening)
    requires Startup(open) && open.result == StoreOk && open.store.Some?
    ensures WorldOk(WorldOf(StartLoop(open.store.value, open.disk.file)))
  {
    hide WorldOk, OpenExisting, CreateNew, EmptyRegistry;
    if disk: Disk, now, read :| Replay(disk.file).Ok? && open == OpenExisting(disk, now, read) {
      OpenedIsQuiet(disk, now, read);
    } else {
      var script, now :| open == CreateNew(script, now);
      CreatedIsQuiet(script, now);
    }
  }

  /** Crash refinement for the event loop: after any events, whether the loop is in
      service, has latched a failure or was killed inside a system call, replay of the
      file it leaves gives what was published last, or that advanced by the one record
      in flight; and no job was lost, reordered or moved backwards since startup. */
  lemma LoopLeavesItsLog(open: Opening, events: seq<Event>, config: Config)
    requires Startup(open) && open.result == StoreOk && open.store.Some?
    ensures var loop := RunLoop(StartLoop(open.store.value, open.disk.file), events, config);
            && RecoversExactly(loop.disk.file, PublishedBy(loop.store))
            && StoreProgresses(open.store.value.jobs.jobs, loop.store.jobs.jobs)
  {
    hide Moves, RunLoop, WorldOk, RecoversExactly, StoreProgresses, Startup;
    var start := StartLoop(open.store.value, open.disk.file);
    StartIsOk(open);
    LoopIsSession(start, events, config);
    var loop := RunLoop(start, events, config);
    MovesKeepOk(start, loop);
    WorldRecovers(WorldOf(loop));
  }
}
