/** What the event loop reads on a connection and what it hands to `handle_message`,
    over every run: the loop's incremental framing is that of a byte stream. */
module Tracing {
  import opened Base
  import opened Messages
  import opened SchedulerModel
  import opened RegistryModel
  import opened WriterModel
  import opened ReplayModel
  import opened StoreModel
  import opened StartupModel
  import opened Protocol
  import opened Listings
  import opened Statistics
  import opened Durability
  import opened EventLoop
  import opened Leases
  import opened Framing
  import opened LoopSafety

  // ---------- what an event reads and hands on ----------

  /** This event reads data on connection `i`. */
  predicate ReadsOn(loop: Loop, event: Event, i: nat, config: Config) {
    && InService(loop) && event.Polled? && event.client == i && i < |loop.clients|
    && loop.clients[i].fd >= 0 && loop.clients[i].phase == Reading
    && !HeartbeatMissed(loop.store.workers, loop.clients[i].workerId, event.now, config.heartbeatTimeout)
    && event.poll.Readable? && event.poll.recv.Data?
  }

  /** The connection with the bytes just read. */
  function Filled(loop: Loop, event: Event, i: nat, config: Config): Client
    requires ReadsOn(loop, event, i, config)
  {
    loop.clients[i].(input := loop.clients[i].input + event.poll.recv.chunk, lastProgress := event.now)
  }

  /** The message this event hands to `handle_message` for connection `i`. */
  function Handed(loop: Loop, event: Event, i: nat, config: Config): Option<Message> {
    if !ReadsOn(loop, event, i, config) then None
    else
      var c := Filled(loop, event, i, config);
      if |c.input| < c.expected || !FrameOf(c).Whole? then None else Some(FrameOf(c).message)
  }

  /** The loop as the handlers of an event find it. */
  function Fed(loop: Loop, event: Event): Loop
    requires !event.Accepted?
  {
    loop.(disk := Disk(loop.disk.file, event.script))
  }

  /** `Handed` is what `read_message` does: the handler runs on the filled buffer exactly
      for that message, and otherwise the connection waits, asks for more or is closed. */
  lemma HandedIsHandled(loop: Loop, event: Event, i: nat, config: Config)
    requires ReadsOn(loop, event, i, config)
    ensures var c := Filled(loop, event, i, config);
            var got := WithClient(Fed(loop, event), i, c);
            var served := Serve(Fed(loop, event), i, event.poll, event.now, event.clock, config);
            match Handed(loop, event, i, config)
            case Some(m) => served == HandleMessage(got, i, m, event.now, event.clock, config)
            case None =>
              if |c.input| < c.expected then served == got
              else if FrameOf(c).More? then served == WithClient(got, i, c.(expected := FrameOf(c).expected))
              else FrameOf(c).Broken? && served == CloseClient(got, i, event.clock)
  {
    hide FrameOf, HandleMessage, CloseClient;
  }

  /** Everything since the connection in slot `i` was accepted: its descriptor, the
      chunks read with the role at that moment, and the messages handed on. */
  datatype Trace = Trace(fd: int, arrivals: seq<Arrival>, handed: seq<Message>)

  function TraceStep(t: Trace, loop: Loop, event: Event, i: nat, config: Config): Trace {
    if InService(loop) && event.Accepted? && FreeClient(loop.clients) == i then Trace(event.fd, [], [])
    else if !ReadsOn(loop, event, i, config) then t
    else
      var c := loop.clients[i];
      var m := Handed(loop, event, i, config);
      Trace(t.fd, t.arrivals + [Arrival(event.poll.recv.chunk, c.workerId, c.jobClient)],
            t.handed + (if m.Some? then [m.value] else []))
  }

  function TraceOf(start: Loop, events: seq<Event>, i: nat, config: Config): Trace {
    if events == [] then Trace(-1, [], [])
    else
      var n := |events| - 1;
      TraceStep(TraceOf(start, events[..n], i, config), RunLoop(start, events[..n], config), events[n], i, config)
  }

  // ---------- other connections are left alone ----------

  lemma CloseFrames(loop: Loop, i: nat, clock: Clock, k: nat)
    requires i < |loop.clients| && k < |loop.clients|
    ensures k != i ==> CloseClient(loop, i, clock).clients[k] == loop.clients[k]
    ensures var after := CloseClient(loop, i, clock); after.killed || after.clients[i].fd < 0
  {
    hide Execute, ActiveSlot, Buried;
  }

  lemma QueueFrames(loop: Loop, i: nat, m: Message, clock: Clock, k: nat)
    requires i < |loop.clients| && k < |loop.clients|
    ensures var after := QueueMessage(loop, i, m, clock);
            && (k != i ==> after.clients[k] == loop.clients[k])
            && (after.killed || after.clients[i].fd < 0 || after.clients[i].phase == Writing)
  {
    hide CloseClient, EncodeMessage;
    CloseFrames(loop, i, clock, k);
  }

  /** A connection that is not waiting in the middle of a frame. */
  predicate BetweenFrames(c: Client) {
    c.fd < 0 || c.phase == Writing || (c.input == [] && c.expected == WIRE_HEADER_SIZE)
  }

  /** A handler touches its own connection only, and is done with the frame. */
  ghost predicate Finishes(loop: Loop, after: Loop, i: nat) {
    && |after.clients| == |loop.clients|
    && (forall k :: 0 <= k < |loop.clients| && k != i ==> after.clients[k] == loop.clients[k])
    && (InService(after) ==> i < |after.clients| && BetweenFrames(after.clients[i]))
  }

  lemma CloseFinishes(loop: Loop, i: nat, clock: Clock)
    requires i < |loop.clients|
    ensures Finishes(loop, CloseClient(loop, i, clock), i)
  {
    hide CloseClient;
    forall k: nat | k < |loop.clients|
      ensures k != i ==> CloseClient(loop, i, clock).clients[k] == loop.clients[k]
      ensures var after := CloseClient(loop, i, clock); after.killed || after.clients[i].fd < 0
    {
      CloseFrames(loop, i, clock, k);
    }
  }

  lemma QueueFinishes(loop: Loop, i: nat, m: Message, clock: Clock)
    requires i < |loop.clients|
    ensures Finishes(loop, QueueMessage(loop, i, m, clock), i)
  {
    hide QueueMessage;
    var after := QueueMessage(loop, i, m, clock);
    forall k: nat | k < |loop.clients|
      ensures k != i ==> after.clients[k] == loop.clients[k]
      ensures after.killed || after.clients[i].fd < 0 || after.clients[i].phase == Writing
    {
      QueueFrames(loop, i, m, clock, k);
    }
  }

  /** A step that changes connection `i` at most, then one that finishes. */
  lemma FinishesAfter(loop: Loop, middle: Loop, after: Loop, i: nat)
    requires |middle.clients| == |loop.clients|
    requires forall k :: 0 <= k < |loop.clients| && k != i ==> middle.clients[k] == loop.clients[k]
    requires Finishes(middle, after, i)
    ensures Finishes(loop, after, i)
  {}

  lemma AnswerFinishes(loop: Loop, i: nat, c: Client, m: Message, clock: Clock)
    requires i < |loop.clients|
    ensures Finishes(loop, QueueMessage(WithClient(loop, i, c), i, m, clock), i)
    ensures Finishes(loop, CloseClient(WithClient(loop, i, c), i, clock), i)
  {
    hide QueueMessage, CloseClient, Finishes;
    var changed := WithClient(loop, i, c);
    QueueFinishes(changed, i, m, clock);
    CloseFinishes(changed, i, clock);
    FinishesAfter(loop, changed, QueueMessage(changed, i, m, clock), i);
    FinishesAfter(loop, changed, CloseClient(changed, i, clock), i);
  }

  lemma ResetFinishes(loop: Loop, i: nat, c: Client)
    requires i < |loop.clients|
    ensures Finishes(loop, WithClient(loop, i, ResetInput(c)), i)
  {}

  lemma EndFinishes(loop: Loop, after: Loop, i: nat)
    requires after.clients == loop.clients && !InService(after)
    ensures Finishes(loop, after, i)
  {}

  lemma FinishesAlike(a: Loop, b: Loop, after: Loop, i: nat)
    requires a.clients == b.clients && Finishes(a, after, i)
    ensures Finishes(b, after, i)
  {}

  lemma FatalEnds(loop: Loop, op: Operation)
    requires InService(loop) && Usable(loop.store)
    ensures var done := Perform(loop, op);
            done.1.clients == loop.clients && (done.0 == Fatal || done.0 == Killed ==> !InService(done.1))
  {
    hide Register, Submit, Dispatch, ApplyReport, LoseWorker, ActiveSlot, FindSlot, JobTime, IsAlive, Append;
  }

  lemma HandleFinishes(loop: Loop, i: nat, m: Message, now: i64, clock: Clock, config: Config)
    requires InService(loop) && Usable(loop.store) && i < |loop.clients|
    ensures Finishes(loop, HandleMessage(loop, i, m, now, clock, config), i)
  {
    hide Finishes, CloseClient, QueueMessage, HandleRegister, HandleHeartbeat, HandleSubmit, HandleReport,
         HandleListing, HandleStats, StatusReply, InService;
    match m {
      case Ping => QueueFinishes(loop, i, Pong, clock);
      case WorkerRegister => RegisterFinishes(loop, i, clock);
      case Heartbeat(id) => HeartbeatFinishes(loop, i, id, now, clock);
      case JobSubmit(submission) => SubmitFinishes(loop, i, submission, clock);
      case JobStatusRequest(id) =>
        AnswerFinishes(loop, i, loop.clients[i].(jobClient := true), StatusReply(loop.store.jobs.jobs, id), clock);
      case StartedReport(_) => ReportFinishes(loop, i, m, clock);
      case CompletedReport(_, _) => ReportFinishes(loop, i, m, clock);
      case FailedReport(_, _) => ReportFinishes(loop, i, m, clock);
      case JobsRequest => QueryFinishes(loop, i, m, clock, config);
      case WorkersRequest => QueryFinishes(loop, i, m, clock, config);
      case StatsRequest => QueryFinishes(loop, i, m, clock, config);
      case _ => CloseFinishes(loop, i, clock);
    }
  }

  lemma RegisterFinishes(loop: Loop, i: nat, clock: Clock)
    requires InService(loop) && Usable(loop.store) && i < |loop.clients|
    ensures Finishes(loop, HandleRegister(loop, i, clock), i)
  {
    hide Finishes, CloseClient, QueueMessage, Perform, InService;
    var c, id := loop.clients[i], loop.store.workers.nextWorkerId;
    CloseFinishes(loop, i, clock);
    if !c.jobClient {
      var done := Perform(loop, RegisterWorker(c.fd, clock.op));
      FatalEnds(loop, RegisterWorker(c.fd, clock.op));
      CloseFinishes(done.1, i, clock);
      AnswerFinishes(done.1, i, c.(workerId := id), WorkerRegisterAck(id), clock);
      if done.0 == Fatal || done.0 == Killed {
        EndFinishes(loop, done.1, i);
      } else {
        FinishesAlike(done.1, loop, HandleRegister(loop, i, clock), i);
      }
    }
  }

  lemma HeartbeatFinishes(loop: Loop, i: nat, id: u32, now: i64, clock: Clock)
    requires i < |loop.clients|
    ensures Finishes(loop, HandleHeartbeat(loop, i, id, now, clock), i)
  {
    hide Finishes, CloseClient, RecordHeartbeat;
    var c := loop.clients[i];
    CloseFinishes(loop, i, clock);
    if c.workerId != 0 && id == c.workerId && RecordHeartbeat(loop.store.workers, id, c.fd, now).Ok? {
      var beaten := loop.(store := loop.store.(workers := RecordHeartbeat(loop.store.workers, id, c.fd, now).value));
      ResetFinishes(beaten, i, c);
      FinishesAlike(beaten, loop, HandleHeartbeat(loop, i, id, now, clock), i);
    }
  }

  lemma SubmitFinishes(loop: Loop, i: nat, submission: Submission, clock: Clock)
    requires InService(loop) && Usable(loop.store) && i < |loop.clients|
    ensures Finishes(loop, HandleSubmit(loop, i, submission, clock), i)
  {
    hide Finishes, CloseClient, QueueMessage, Perform, InService;
    CloseFinishes(loop, i, clock);
    if loop.clients[i].workerId == 0 {
      var done := Perform(loop, SubmitJob(submission, clock.op));
      FatalEnds(loop, SubmitJob(submission, clock.op));
      CloseFinishes(done.1, i, clock);
      AnswerFinishes(done.1, i, done.1.clients[i].(jobClient := true), JobSubmitAck(loop.store.jobs.nextJobId), clock);
      if done.0 == Fatal || done.0 == Killed {
        EndFinishes(loop, done.1, i);
      } else {
        FinishesAlike(done.1, loop, HandleSubmit(loop, i, submission, clock), i);
      }
    }
  }

  lemma ReportFinishes(loop: Loop, i: nat, report: Message, clock: Clock)
    requires InService(loop) && Usable(loop.store) && i < |loop.clients|
    ensures Finishes(loop, HandleReport(loop, i, report, clock), i)
  {
    hide Finishes, CloseClient, Perform, InService;
    var c := loop.clients[i];
    var done := Perform(loop, ReportJob(c.workerId, report, clock.op));
    FatalEnds(loop, ReportJob(c.workerId, report, clock.op));
    CloseFinishes(done.1, i, clock);
    ResetFinishes(done.1, i, c);
    if done.0 == Fatal || done.0 == Killed {
      EndFinishes(loop, done.1, i);
    } else {
      FinishesAlike(done.1, loop, HandleReport(loop, i, report, clock), i);
    }
  }

  lemma QueryFinishes(loop: Loop, i: nat, request: Message, clock: Clock, config: Config)
    requires i < |loop.clients|
    ensures Finishes(loop, HandleListing(loop, i, request, clock, config), i)
    ensures Finishes(loop, HandleStats(loop, i, clock, config), i)
  {
    hide Finishes, CloseClient, QueueMessage, JobListing, WorkerListing, Snapshot;
    CloseFinishes(loop, i, clock);
    var asked := loop.clients[i].(jobClient := true);
    forall m: Message
      ensures Finishes(loop, QueueMessage(WithClient(loop, i, asked), i, m, clock), i)
    {
      AnswerFinishes(loop, i, asked, m, clock);
    }
    AnswerFinishes(loop, i, asked, Pong, clock);
  }

  // ---------- the loop follows the stream ----------

  function StreamOf(t: Trace): Stream {
    ReceiveAll(FreshStream(t.fd), t.arrivals)
  }

  /** An open connection has the buffer of its stream, unless it is answering a frame
      that the stream has already put behind it. */
  predicate Follows(c: Client, s: Stream) {
    && !s.broken
    && (if c.phase == Reading then s.client.input == c.input && s.client.expected == c.expected
        else s.client.input == [] && s.client.expected == WIRE_HEADER_SIZE)
  }

  ghost predicate TraceOk(loop: Loop, t: Trace, i: nat) {
    && ReadsFit(FreshStream(t.fd), t.arrivals)
    && StreamOf(t).handled == t.handed
    && (InService(loop) && i < |loop.clients| && loop.clients[i].fd >= 0 ==> Follows(loop.clients[i], StreamOf(t)))
  }

  lemma OneMoreArrival(t: Trace, a: Arrival)
    requires ReadsFit(FreshStream(t.fd), t.arrivals)
    requires 0 < |a.chunk| <= StreamOf(t).client.expected - |StreamOf(t).client.input|
    ensures ReadsFit(FreshStream(t.fd), t.arrivals + [a])
    ensures ReceiveAll(FreshStream(t.fd), t.arrivals + [a]) == Receive(StreamOf(t), a)
  {
    hide Receive;
    var more := t.arrivals + [a];
    assert more[..|more| - 1] == t.arrivals;
    forall n | 0 <= n < |more| ensures more[..n] == t.arrivals[..n] {}
    assert t.arrivals[..|t.arrivals|] == t.arrivals;
  }

  /** Data arrives. */
  lemma ReadFollows(loop: Loop, event: Event, t: Trace, i: nat, config: Config)
    requires ReadsOn(loop, event, i, config) && Usable(loop.store) && Possible(loop, event) && TraceOk(loop, t, i)
    ensures var served := Serve(Fed(loop, event), i, event.poll, event.now, event.clock, config);
            TraceOk(served, TraceStep(t, loop, event, i, config), i)
  {
    hide FrameOf, ReadsFit, HandleMessage, CloseClient, ReceiveAll, HeartbeatMissed;
    var c, s := loop.clients[i], StreamOf(t);
    var a := Arrival(event.poll.recv.chunk, c.workerId, c.jobClient);
    var filled := Filled(loop, event, i, config);
    var got := WithClient(Fed(loop, event), i, filled);
    OneMoreArrival(t, a);
    HandedIsHandled(loop, event, i, config);
    var d := s.client.(input := s.client.input + a.chunk, workerId := a.workerId, jobClient := a.jobClient);
    SameFrame(filled, d);
    if |filled.input| >= filled.expected {
      match FrameOf(filled) {
        case Broken => CloseFrames(got, i, event.clock, i);
        case More(expected) =>
        case Whole(m) => HandleFinishes(got, i, m, event.now, event.clock, config);
      }
    }
  }

  /** A frame depends on the bytes and the role alone. */
  lemma SameFrame(c: Client, d: Client)
    requires c.input == d.input && c.workerId == d.workerId && c.jobClient == d.jobClient
    ensures FrameOf(c) == FrameOf(d)
  {
    hide DecodeFrameHeader, DecodeMessage;
  }

  /** Closing connection `i` ends its trace; closing another one leaves it alone. */
  lemma CloseFollows(loop: Loop, j: nat, clock: Clock, t: Trace, i: nat)
    requires TraceOk(loop, t, i) && j < |loop.clients| && !loop.killed
    ensures TraceOk(CloseClient(loop, j, clock), t, i)
  {
    hide CloseClient, ReadsFit, StreamOf, Follows;
    if i < |loop.clients| {
      CloseFrames(loop, j, clock, i);
    }
    if !InService(loop) {
      ClosingStaysDown(loop, j, clock);
    }
  }

  lemma WriteFollows(loop: Loop, i: nat, send: Send, now: i64, clock: Clock, t: Trace)
    requires TraceOk(loop, t, i) && InService(loop) && i < |loop.clients| && loop.clients[i].fd >= 0
        && loop.clients[i].phase == Writing
    ensures TraceOk(WriteReply(loop, i, send, now, clock), t, i)
  {
    hide CloseClient, ReadsFit, StreamOf;
    CloseFollows(loop, i, clock, t, i);
  }

  /** One client's turn, seen from any slot. */
  lemma TurnFollows(loop: Loop, event: Event, t: Trace, i: nat, config: Config)
    requires LoopOk(loop) && InService(loop) && Possible(loop, event) && TraceOk(loop, t, i)
    requires event.Polled? && event.client < |loop.clients|
    ensures TraceOk(Turn(Fed(loop, event), event.client, event.poll, event.now, event.clock, config),
                    TraceStep(t, loop, event, i, config), i)
  {
    hide LoopOk, CloseClient, ReadMessage, WriteReply, HeartbeatMissed, ReadsFit, StreamOf, Follows, Handed;
    var fed, j := Fed(loop, event), event.client;
    var next := TraceStep(t, loop, event, i, config);
    assert Usable(loop.store) by { OkIsUsable(loop); }
    if fed.clients[j].fd >= 0 {
      if HeartbeatMissed(fed.store.workers, fed.clients[j].workerId, event.now, config.heartbeatTimeout)
          || event.poll.Invalid? {
        CloseFollows(fed, j, event.clock, t, i);
      } else {
        var served := Serve(fed, j, event.poll, event.now, event.clock, config);
        ServeFollows(loop, event, t, i, config);
        if !served.killed {
          CloseFollows(served, j, event.clock, next, i);
        }
      }
    }
  }

  lemma OkIsUsable(loop: Loop)
    requires LoopOk(loop) && InService(loop)
    ensures Usable(loop.store)
  {
    hide LeasesAlive, Bindings, FrameOk, Durable;
    DurableMirrors(loop.store, loop.disk.file);
  }

  lemma ServeFollows(loop: Loop, event: Event, t: Trace, i: nat, config: Config)
    requires Usable(loop.store) && InService(loop) && Possible(loop, event) && TraceOk(loop, t, i)
    requires event.Polled? && event.client < |loop.clients| && loop.clients[event.client].fd >= 0
    requires !HeartbeatMissed(loop.store.workers, loop.clients[event.client].workerId, event.now,
        config.heartbeatTimeout)
    ensures TraceOk(Serve(Fed(loop, event), event.client, event.poll, event.now, event.clock, config),
                    TraceStep(t, loop, event, i, config), i)
  {
    hide CloseClient, HandleMessage, WriteReply, HeartbeatMissed, ReadsFit, StreamOf, Follows, Handed, FrameOf;
    var fed, j := Fed(loop, event), event.client;
    if ReadsOn(loop, event, j, config) {
      if i == j {
        ReadFollows(loop, event, t, i, config);
      } else {
        ReadElsewhere(loop, event, config);
      }
    } else if fed.clients[j].phase == Reading && event.poll.Readable? {
      CloseFollows(fed, j, event.clock, t, i);
    } else if fed.clients[j].phase == Writing && event.poll.Writable? {
      if i == j {
        WriteFollows(fed, i, event.poll.send, event.now, event.clock, t);
      } else {
        WriteElsewhere(fed, j, event.poll.send, event.now, event.clock, t, i);
      }
    }
  }

  /** Reading on one connection leaves the others alone. */
  lemma ReadElsewhere(loop: Loop, event: Event, config: Config)
    requires event.Polled? && ReadsOn(loop, event, event.client, config) && Usable(loop.store)
    ensures var served := Serve(Fed(loop, event), event.client, event.poll, event.now, event.clock, config);
            && |served.clients| == |loop.clients|
            && forall k :: 0 <= k < |loop.clients| && k != event.client ==> served.clients[k] == loop.clients[k]
  {
    hide FrameOf, HandleMessage, CloseClient, HeartbeatMissed, BetweenFrames;
    var j := event.client;
    var got := WithClient(Fed(loop, event), j, Filled(loop, event, j, config));
    HandedIsHandled(loop, event, j, config);
    CloseFinishes(got, j, event.clock);
    if Handed(loop, event, j, config).Some? {
      HandleFinishes(got, j, Handed(loop, event, j, config).value, event.now, event.clock, config);
    }
  }

  lemma WriteElsewhere(loop: Loop, j: nat, send: Send, now: i64, clock: Clock, t: Trace, i: nat)
    requires TraceOk(loop, t, i) && InService(loop) && j < |loop.clients| && i != j
    ensures TraceOk(WriteReply(loop, j, send, now, clock), t, i)
  {
    hide CloseClient, ReadsFit, StreamOf, Follows;
    CloseFollows(loop, j, clock, t, i);
  }

  /** A scheduling round leaves the clients alone, or sends on a connection that is
      between frames. */
  lemma ScheduleOutcome(loop: Loop, j: nat, now: i64, clock: Clock, config: Config, k: nat)
    requires j < |loop.clients| && k < |loop.clients|
    ensures var after := Schedule(loop, j, now, clock, config);
            && (k != j ==> after.clients[k] == loop.clients[k])
            && (after.clients[j] == loop.clients[j] || after.killed || after.clients[j].fd < 0
                || (after.clients[j].phase == Writing && loop.clients[j].phase == Reading
                    && loop.clients[j].input == []))
  {
    hide QueueMessage, Execute, FindSlot, ActiveSlot, WorkerSlot, TimedOut;
    var done := Perform(loop, AssignJob(loop.clients[j].workerId, now));
    forall m: Message
      ensures var after := QueueMessage(done.1, j, m, clock);
              && (k != j ==> after.clients[k] == loop.clients[k])
              && (after.killed || after.clients[j].fd < 0 || after.clients[j].phase == Writing)
    {
      QueueFrames(done.1, j, m, clock, k);
    }
  }

  lemma ScheduleFollows(loop: Loop, j: nat, now: i64, clock: Clock, config: Config, t: Trace, i: nat)
    requires InService(loop) && j < |loop.clients| && TraceOk(loop, t, i)
    ensures TraceOk(Schedule(loop, j, now, clock, config), t, i)
  {
    hide Schedule, ReadsFit, ReceiveAll, StreamOk;
    if i < |loop.clients| {
      ScheduleOutcome(loop, j, now, clock, config, i);
      var after := Schedule(loop, j, now, clock, config);
      if i == j && loop.clients[i].fd >= 0 && loop.clients[i].phase == Reading && loop.clients[i].input == [] {
        IdleStream(t);
      }
      if i == j && loop.clients[i].fd < 0 {
        ClosedStaysClosed(loop, j, now, clock, config);
      }
    }
  }

  lemma ClosedStaysClosed(loop: Loop, j: nat, now: i64, clock: Clock, config: Config)
    requires j < |loop.clients| && loop.clients[j].fd < 0
    ensures Schedule(loop, j, now, clock, config) == loop
  {
    hide Perform, QueueMessage, FindSlot, ActiveSlot, WorkerSlot, TimedOut;
  }

  /** A stream with an empty buffer expects a header. */
  lemma IdleStream(t: Trace)
    requires ReadsFit(FreshStream(t.fd), t.arrivals) && !StreamOf(t).broken && StreamOf(t).client.input == []
    ensures StreamOf(t).client.expected == WIRE_HEADER_SIZE
  {
    hide ReadsFit, ReceiveAll, FrameOf, EncodeAll, AllEncodable;
    ReceiveAllKeeps(t.fd, t.arrivals);
  }

  lemma AcceptFollows(loop: Loop, event: Event, t: Trace, i: nat, config: Config)
    requires event.Accepted? && InService(loop) && TraceOk(loop, t, i)
    ensures TraceOk(Accept(loop, event.fd, event.now), TraceStep(t, loop, event, i, config), i)
  {
    hide FreeClient;
  }

  lemma ReactFollows(loop: Loop, event: Event, t: Trace, i: nat, config: Config)
    requires LoopOk(loop) && Possible(loop, event) && TraceOk(loop, t, i)
    ensures TraceOk(React(loop, event, config), TraceStep(t, loop, event, i, config), i)
  {
    hide LoopOk, Turn, Schedule, Accept, ReadsFit, StreamOf, Follows, Handed, HeartbeatMissed;
    if InService(loop) {
      match event {
        case Accepted(fd, now) => AcceptFollows(loop, event, t, i, config);
        case Polled(j, poll, now, clock, script) => TurnFollows(loop, event, t, i, config);
        case Scheduled(j, now, clock, script) => ScheduleFollows(Fed(loop, event), j, now, clock, config, t, i);
      }
    }
  }

  lemma NothingTraced(loop: Loop, i: nat)
    requires i < |loop.clients| ==> loop.clients[i].fd < 0
    ensures TraceOk(loop, Trace(-1, [], []), i)
  {}

  lemma {:induction false} RunFollows(start: Loop, events: seq<Event>, i: nat, config: Config)
    requires LoopOk(start) && AllPossible(start, events, config)
    requires i < |start.clients| ==> start.clients[i].fd < 0
    ensures TraceOk(RunLoop(start, events, config), TraceOf(start, events, i, config), i)
    decreases |events|
  {
    hide LoopOk, React, Possible, TraceStep, TraceOk;
    if events == [] {
      NothingTraced(start, i);
    } else {
      var n := |events| - 1;
      forall k | 0 <= k < n ensures events[..n][..k] == events[..k] {}
      RunFollows(start, events[..n], i, config);
      RunLoopKeeps(start, events[..n], config);
      ReactFollows(RunLoop(start, events[..n], config), events[n], TraceOf(start, events[..n], i, config), i, config);
    }
  }

  /** Framing in every run of the event loop: for every slot, the messages handed to
      `handle_message` since its connection was accepted are those the stream of bytes
      read on it gives, hence the first messages in those bytes.  While the connection is
      open they are all of them, and before each read the buffer holds fewer bytes than
      are expected, within its capacity. */
  lemma FramingInEveryRun(open: Opening, events: seq<Event>, i: nat, config: Config)
    requires Startup(open) && open.result == StoreOk && i < MAX_CLIENTS
    requires open.store.Some? && AllPossible(StartLoop(open.store.value, open.disk.file), events, config)
    ensures var start := StartLoop(open.store.value, open.disk.file);
            var loop := RunLoop(start, events, config);
            var t := TraceOf(start, events, i, config);
            var read := BytesOf(t.arrivals);
            && ReadsFit(FreshStream(t.fd), t.arrivals)
            && t.handed == ReceiveAll(FreshStream(t.fd), t.arrivals).handled
            && t.handed <= MessagesIn(read)
            && (InService(loop) && i < |loop.clients| && loop.clients[i].fd >= 0 ==>
                  && t.handed == MessagesIn(read)
                  && (loop.clients[i].phase == Reading ==>
                        |loop.clients[i].input| < loop.clients[i].expected <= MAX_FRAME_SIZE))
  {
    hide Startup, LoopOk, RunLoop, TraceOf, AllPossible, ReadsFit, ReceiveAll, MessagesIn, BytesOf, EncodeAll,
         AllEncodable, FrameOf, DecodeMessage, Code, Allowed;
    var start := StartLoop(open.store.value, open.disk.file);
    OpenedLoopOk(open);
    RunFollows(start, events, i, config);
    var t := TraceOf(start, events, i, config);
    FramingIsExact(t.fd, t.arrivals);
  }
}
