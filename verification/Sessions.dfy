/** The coordinator and its log over any number of sessions: the crash theorem.

    A world is the log file, the running process if there is one, and the state the
    coordinator published last.  Actions start a process on the file, run one store
    operation, update the live registry, or kill the process.  Start and store
    operations carry the environment's script, so that every partial write, failed
    sync and crash point inside them is covered. */
module Sessions {
  import opened Base
  import opened JobModel
  import opened Messages
  import opened SchedulerModel
  import opened RegistryModel
  import opened WalFormat
  import opened WriterModel
  import opened HistoryModel
  import opened ReplayModel
  import opened StoreModel
  import opened StartupModel
  import opened Durability
  import opened Settlement
  import opened Recovery
  import opened Lifetime

  datatype Action =
    | Start(now: i64, read: IoStatus, script: seq<Io>)
    | Do(op: Operation, script: seq<Io>)
    | Beat(workerId: u32, fd: int, now: i64)
    | Bury(workerId: u32, fd: int)
    | Kill

  datatype World = World(file: bytes, process: Option<Store>, published: Published)

  /** An initialized log and no process. */
  function NewWorld(): World {
    World(FileHeader(), None, PublishedIn(EmptyHistory()))
  }

  function Started(world: World, open: Opening): World {
    World(open.disk.file,
          if open.result == StoreOk then open.store else None,
          if open.store.Some? then PublishedBy(open.store.value) else world.published)
  }

  function Next(world: World, action: Action): World {
    match action
    case Start(now, read, script) =>
      if world.process.Some? then world else Started(world, OpenExisting(Disk(world.file, script), now, read))
    case Do(op, script) =>
      if world.process.None? then world
      else
        var step := Execute(world.process.value, Disk(world.file, script), op);
        World(step.disk.file, if step.result == Killed then None else Some(step.store), PublishedBy(step.store))
    case Beat(workerId, fd, now) =>
      if world.process.None? then world
      else
        var beat := RecordHeartbeat(world.process.value.workers, workerId, fd, now);
        if beat.Err? then world else world.(process := Some(world.process.value.(workers := beat.value)))
    case Bury(workerId, fd) =>
      if world.process.None? then world
      else
        var dead := MarkDead(world.process.value.workers, workerId, fd);
        if dead.Err? then world else world.(process := Some(world.process.value.(workers := dead.value)))
    case Kill => world.(process := None)
  }

  function Run(world: World, actions: seq<Action>): World {
    if actions == [] then world else Next(Run(world, actions[..|actions| - 1]), actions[|actions| - 1])
  }

  /** A healthy process mirrors the whole log; otherwise the file recovers to what was
      published last, give or take the one record in flight. */
  ghost predicate WorldOk(world: World) {
    if world.process.Some? && world.process.value.fault == NoFault then
      && Replay(world.file).Ok? && Holds(world.file, Replay(world.file).value.history)
      && Mirrors(world.process.value, Replay(world.file).value.history)
      && world.process.value.isOpen
      && PublishedBy(world.process.value) == world.published
    else
      && Recovers(world.file, world.published)
      && (world.process.Some? ==> PublishedBy(world.process.value) == world.published)
  }

  /** What clients saw before is never taken back. */
  predicate Grows(before: World, after: World) {
    StoreProgresses(before.published.jobs.jobs, after.published.jobs.jobs)
  }

  // ---------- progress across a restart ----------

  lemma SameProgress(jobs: seq<Job>)
    ensures StoreProgresses(jobs, jobs)
  {
    forall i | 0 <= i < |jobs| ensures Progresses(jobs[i], jobs[i]) {
      SelfProgress(jobs[i]);
    }
  }

  /** Replay finds every published job, at the same or a later moment of its life. */
  lemma RecoveryProgresses(file: bytes, published: Published)
    requires Recovers(file, published)
    ensures Replay(file).Ok?
    ensures StoreProgresses(published.jobs.jobs, Replay(file).value.history.scheduler.jobs)
  {
    hide Replay, EncodeRecord, Apply, HistoryOk;
    var base, h :| Holds(base, h) && HistoryOk(h) && PublishedIn(h) == published && InFlight(base, h, file);
    var record :| Partly(base, h, record, file);
    SameProgress(published.jobs.jobs);
    if file != base {
      var k: nat :| Extends(base, h, record, k, file);
      ReplayInFlight(base, h, record, k, file);
      EncodedIsValid(record);
      ApplyProgresses(h, record);
    }
  }

  /** Cutting the tail loses nothing that could be recovered. */
  lemma RecoversAfterRepair(file: bytes, published: Published)
    requires Recovers(file, published) && Replay(file).Ok?
    ensures Recovers(ValidPart(file), published)
  {
    hide Replay, EncodeRecord, Apply, HistoryOk;
    var base, h :| Holds(base, h) && HistoryOk(h) && PublishedIn(h) == published && InFlight(base, h, file);
    var record :| Partly(base, h, record, file);
    if file == base {
      assert ValidPart(file) == base;
    } else {
      var k: nat :| Extends(base, h, record, k, file);
      ReplayInFlight(base, h, record, k, file);
      var wire := EncodeRecord(record).value;
      if k < |wire| {
        assert ValidPart(file) == base;
        assert Partly(base, h, record, base);
      } else {
        assert ValidPart(file) == file;
      }
    }
    assert InFlight(base, h, ValidPart(file));
  }

  lemma {:induction false} ReconcileProgresses(store: Store, h: History, disk: Disk, i: nat, now: i64)
    requires AtStartup(store, h, now) && Holds(disk.file, h)
    ensures StoreProgresses(h.scheduler.jobs, Reconcile(store, disk, i, now).store.jobs.jobs)
    decreases STORE_CAPACITY - i
  {
    hide HistoryOk, Replay, PlanLoss, EncodeRecord, Apply, Carry, Lost, Sound, RegistryOk, Progresses;
    SameProgress(h.scheduler.jobs);
    if i < |store.jobs.jobs| && i < STORE_CAPACITY {
      if !IsActive(store.jobs.jobs[i]) {
        ReconcileProgresses(store, h, disk, i + 1, now);
      } else if h.lastSequence == U64_MAX {
        ExhaustedStops(store, h, disk, i, now);
      } else {
        LossPlan(store, h, i, now);
        var plan := PlanLoss(store, store.jobs.jobs[i].workerId, now);
        CarryCommits(store, h, disk, plan);
        LossRecordApplies(h, i);
        var step := Carry(store, disk, plan);
        if step.result == StoreOk {
          var next := AfterLoss(h, i);
          var settled := step.store.(interrupted := step.store.interrupted + 1);
          assert Mirrors(step.store, next) by { SoundMirrors(store, h, plan); }
          ReconcileProgresses(settled, next, step.disk, i + 1, now);
          ApplyProgresses(h, LossRecord(h, i));
          ProgressIsTransitive(h.scheduler.jobs, next.scheduler.jobs,
              Reconcile(settled, step.disk, i + 1, now).store.jobs.jobs);
        }
      }
    }
  }

  lemma OpenProgresses(disk: Disk, now: i64, read: IoStatus)
    requires Replay(disk.file).Ok?
    ensures var open := OpenExisting(disk, now, read);
            open.store.Some? ==>
              StoreProgresses(Replay(disk.file).value.history.scheduler.jobs, open.store.value.jobs.jobs)
  {
    hide Replay, HistoryOk, Reconcile, Repair, RegistryOk, Progresses;
    ValidPartHolds(disk.file);
    var h := Replay(disk.file).value.history;
    RepairOutcome(disk);
    var repaired := Repair(disk);
    if now >= 0 && read == IoOk && repaired.0 == IoOk {
      RecoveredMirrors(h, now);
      ReconcileProgresses(Recovered(h, now), h, repaired.1, 0, now);
    }
  }

  // ---------- every action keeps the world in order ----------

  lemma StartKeepsOk(world: World, now: i64, read: IoStatus, script: seq<Io>)
    requires WorldOk(world) && world.process.None?
    ensures var after := Next(world, Start(now, read, script)); WorldOk(after) && Grows(world, after)
  {
    hide Replay, HistoryOk, OpenExisting, Recovers, StoreProgresses, Mirrors;
    RecoveryProgresses(world.file, world.published);
    var disk := Disk(world.file, script);
    var open := OpenExisting(disk, now, read);
    OpenOutcome(disk, now, read);
    OpenProgresses(disk, now, read);
    RecoversAfterRepair(world.file, world.published);
    SameProgress(world.published.jobs.jobs);
    if open.store.Some? {
      ProgressIsTransitive(world.published.jobs.jobs, Replay(world.file).value.history.scheduler.jobs,
                           open.store.value.jobs.jobs);
    }
    if open.result == StoreOk {
      assert open.store.value.fault == NoFault by { MirrorsHealthy(open.store.value, Goal(world.file).history); }
    }
  }

  lemma MirrorsHealthy(store: Store, h: History)
    requires Mirrors(store, h)
    ensures store.fault == NoFault && PublishedBy(store) == PublishedIn(h) && HistoryOk(h)
  {}

  lemma ExecuteKeepsOk(world: World, op: Operation, script: seq<Io>)
    requires WorldOk(world) && world.process.Some?
    ensures var after := Next(world, Do(op, script)); WorldOk(after) && Grows(world, after)
  {
    hide Replay, HistoryOk, StoreProgresses, Mirrors, Holds, Recovers, PlanFor, Sound, Carry, Apply, Publish;
    var store, disk := world.process.value, Disk(world.file, script);
    SameProgress(world.published.jobs.jobs);
    if Usable(store) {
      var h := Replay(world.file).value.history;
      PlanIsSound(store, h, op);
      CarryKeepsOk(store, h, disk, PlanFor(store, op));
    }
  }

  /** The world after carrying out a sound transaction. */
  lemma CarryKeepsOk(store: Store, h: History, disk: Disk, plan: Plan)
    requires Mirrors(store, h) && Holds(disk.file, h) && Sound(store, h, plan) && Usable(store)
    ensures var step := Carry(store, disk, plan);
            var process := if step.result == Killed then None else Some(step.store);
            && WorldOk(World(step.disk.file, process, PublishedBy(step.store)))
            && StoreProgresses(store.jobs.jobs, step.store.jobs.jobs)
  {
    hide Replay, HistoryOk, StoreProgresses, Apply, RegistryOk, EncodeRecord, ValidPayload;
    var step := Carry(store, disk, plan);
    SameProgress(store.jobs.jobs);
    HeldRecovers(disk.file, h);
    if plan.Commit? {
      CarryCommits(store, h, disk, plan);
      if step.result == StoreOk {
        ApplyProgresses(h, plan.record);
      } else {
        assert InFlight(disk.file, h, step.disk.file);
        assert Recovers(step.disk.file, PublishedBy(store));
      }
    }
  }

  lemma RegistryUpdateKeepsOk(world: World, workers: Registry)
    requires WorldOk(world) && world.process.Some?
    requires RegistryOk(world.process.value.workers) ==> RegistryOk(workers)
    requires workers.nextWorkerId == world.process.value.workers.nextWorkerId
    requires |workers.workers| == |world.process.value.workers.workers|
    requires forall i :: 0 <= i < |workers.workers| ==>
               && Used(workers.workers[i]) == Used(world.process.value.workers.workers[i])
               && workers.workers[i].id == world.process.value.workers.workers[i].id
    ensures WorldOk(world.(process := Some(world.process.value.(workers := workers))))
  {
    hide Replay, HistoryOk, RegistryOk, Recovers, Holds;
  }

  lemma NextKeepsOk(world: World, action: Action)
    requires WorldOk(world)
    ensures WorldOk(Next(world, action)) && Grows(world, Next(world, action))
  {
    hide WorldOk, StoreProgresses, OpenExisting, Execute;
    SameProgress(world.published.jobs.jobs);
    match action {
      case Start(now, read, script) =>
        if world.process.None? { StartKeepsOk(world, now, read, script); }
      case Do(op, script) =>
        if world.process.Some? { ExecuteKeepsOk(world, op, script); }
      case Beat(workerId, fd, now) =>
        if world.process.Some? && RecordHeartbeat(world.process.value.workers, workerId, fd, now).Ok? {
          BeatIsUpdate(world, workerId, fd, now);
        }
      case Bury(workerId, fd) =>
        if world.process.Some? && MarkDead(world.process.value.workers, workerId, fd).Ok? {
          BuryIsUpdate(world, workerId, fd);
        }
      case Kill =>
        KillKeepsOk(world);
    }
  }

  lemma BeatIsUpdate(world: World, workerId: u32, fd: int, now: i64)
    requires WorldOk(world) && world.process.Some?
    requires RecordHeartbeat(world.process.value.workers, workerId, fd, now).Ok?
    ensures WorldOk(Next(world, Beat(workerId, fd, now)))
  {
    hide WorldOk, WorkerSlot, RegistryOk;
    var workers := world.process.value.workers;
    if RegistryOk(workers) {
      HeartbeatOk(workers, workerId, fd, now);
    }
    RegistryUpdateKeepsOk(world, RecordHeartbeat(workers, workerId, fd, now).value);
  }

  lemma BuryIsUpdate(world: World, workerId: u32, fd: int)
    requires WorldOk(world) && world.process.Some?
    requires MarkDead(world.process.value.workers, workerId, fd).Ok?
    ensures WorldOk(Next(world, Bury(workerId, fd)))
  {
    hide WorldOk, WorkerSlot, RegistryOk;
    var workers := world.process.value.workers;
    if RegistryOk(workers) {
      MarkDeadOk(workers, workerId, fd);
    }
    RegistryUpdateKeepsOk(world, MarkDead(workers, workerId, fd).value);
  }

  lemma KillKeepsOk(world: World)
    requires WorldOk(world)
    ensures WorldOk(world.(process := None))
  {
    hide Replay, HistoryOk, RegistryOk, Recovers, Holds;
    if world.process.Some? && world.process.value.fault == NoFault {
      HeldRecovers(world.file, Replay(world.file).value.history);
    }
  }

  lemma NewWorldOk()
    ensures WorldOk(NewWorld())
  {
    hide HistoryOk, Recovers;
    FileHeaderDecodes([]);
    assert FileHeader() + [] == FileHeader();
    EmptyHistoryOk();
    HeldRecovers(FileHeader(), EmptyHistory());
  }

  lemma {:induction false} RunKeepsOk(world: World, actions: seq<Action>)
    requires WorldOk(world)
    ensures WorldOk(Run(world, actions)) && Grows(world, Run(world, actions))
    decreases |actions|
  {
    hide WorldOk, Next, StoreProgresses;
    SameProgress(world.published.jobs.jobs);
    if actions != [] {
      var before := Run(world, actions[..|actions| - 1]);
      RunKeepsOk(world, actions[..|actions| - 1]);
      NextKeepsOk(before, actions[|actions| - 1]);
      ProgressIsTransitive(world.published.jobs.jobs, before.published.jobs.jobs,
          Run(world, actions).published.jobs.jobs);
    }
  }

  // ---------- the theorems ----------

  /** What a restart would find. */
  ghost predicate RecoversExactly(file: bytes, published: Published) {
    && Replay(file).Ok?
    && var found := Replay(file).value.history;
    && HistoryOk(found)
    && (PublishedIn(found) == published
        || exists h, record :: HistoryOk(h) && PublishedIn(h) == published && Apply(h, record) == Ok(found))
  }

  /** Crash refinement: after any sessions, operations and crashes on an initialized
      log, with every write split or cut anywhere and any sync failing, replay of the
      surviving bytes succeeds and gives the jobs, queue, allocators and time that
      were published last, or those advanced by exactly the one record in flight. */
  lemma CrashRefinement(actions: seq<Action>)
    ensures var world := Run(NewWorld(), actions); RecoversExactly(world.file, world.published)
  {
    hide WorldOk, Run, RecoversExactly;
    NewWorldOk();
    RunKeepsOk(NewWorld(), actions);
    WorldRecovers(Run(NewWorld(), actions));
  }

  lemma WorldRecovers(world: World)
    requires WorldOk(world)
    ensures RecoversExactly(world.file, world.published)
  {
    hide Replay, HistoryOk, Recovers, Apply, Mirrors;
    if world.process.Some? && world.process.value.fault == NoFault {
      MirrorsHealthy(world.process.value, Replay(world.file).value.history);
    } else {
      RecoveryIsExact(world.file, world.published);
    }
  }

  /** One operation is atomic for whoever reads the log next: however its append is cut,
      replay finds the state before the operation or exactly the state it prepared, and
      the latter whenever it reported success. */
  lemma OperationIsAtomic(actions: seq<Action>, op: Operation, script: seq<Io>)
    requires var world := Run(NewWorld(), actions); world.process.Some? && Usable(world.process.value)
    ensures var world := Run(NewWorld(), actions);
            var plan := PlanFor(world.process.value, op);
            var step := Execute(world.process.value, Disk(world.file, script), op);
            && Replay(step.disk.file).Ok?
            && var found := PublishedIn(Replay(step.disk.file).value.history);
            && (found == world.published || (plan.Commit? && found == PublishedBy(Publish(world.process.value, plan))))
            && (step.result == StoreOk ==> plan.Commit? && found == PublishedBy(Publish(world.process.value, plan)))
  {
    hide Replay, Run, Mirrors, PlanFor, Sound, Carry, HistoryOk, Publish, PublishedBy, PublishedIn;
    NewWorldOk();
    RunKeepsOk(NewWorld(), actions);
    var world := Run(NewWorld(), actions);
    var h := Replay(world.file).value.history;
    PlanIsSound(world.process.value, h, op);
    MirrorsHealthy(world.process.value, h);
    CarryIsAtomic(world.process.value, h, Disk(world.file, script), PlanFor(world.process.value, op));
  }

  lemma CarryIsAtomic(store: Store, h: History, disk: Disk, plan: Plan)
    requires Mirrors(store, h) && Holds(disk.file, h) && Sound(store, h, plan) && Usable(store)
    ensures var step := Carry(store, disk, plan);
            && Replay(step.disk.file).Ok?
            && var found := PublishedIn(Replay(step.disk.file).value.history);
            && (found == PublishedBy(store) || (plan.Commit? && found == PublishedBy(Publish(store, plan))))
            && (step.result == StoreOk ==> plan.Commit? && found == PublishedBy(Publish(store, plan)))
  {
    hide Replay, HistoryOk, Apply, RegistryOk, EncodeRecord, ValidPayload, Append;
    if plan.Commit? {
      CarryCommits(store, h, disk, plan);
      var file := Carry(store, disk, plan).disk.file;
      MirrorsHealthy(Publish(store, plan), Apply(h, plan.record).value);
      if file != disk.file && Carry(store, disk, plan).result != StoreOk {
        var k: nat :| Extends(disk.file, h, plan.record, k, file);
        ReplayInFlight(disk.file, h, plan.record, k, file);
      }
    }
  }

  /** The invariant of every healthy process: the scheduler invariant holds, and the
      store is exactly what its log says. */
  lemma HealthyStoreOk(actions: seq<Action>)
    requires var world := Run(NewWorld(), actions); world.process.Some? && world.process.value.fault == NoFault
    ensures var world := Run(NewWorld(), actions);
            && SchedulerOk(world.process.value.jobs)
            && RegistryOk(world.process.value.workers)
            && Replay(world.file).Ok?
                && PublishedIn(Replay(world.file).value.history) == PublishedBy(world.process.value)
  {
    hide Replay, Run, SchedulerOk, RegistryOk;
    NewWorldOk();
    RunKeepsOk(NewWorld(), actions);
  }

  /** No internal failure is reachable, whatever the run: no process has latched one, no
      operation of a healthy process prepares one, and no startup on the file left at
      that point ends in one, however it is interrupted. */
  lemma InternalFailureUnreachable(actions: seq<Action>, op: Operation, now: i64, read: IoStatus, script: seq<Io>)
    ensures var world := Run(NewWorld(), actions);
            && (world.process.Some? ==> world.process.value.fault != InternalFault)
            && (world.process.Some? && Usable(world.process.value) ==>
                  PlanFor(world.process.value, op) != Refuse(Fatal, InternalFault))
            && var open := OpenExisting(Disk(world.file, script), now, read);
               (open.store.Some? ==> open.store.value.fault != InternalFault)
  {
    hide Replay, Run, Mirrors, PlanFor, HistoryOk, Recovers, OpenExisting, Apply;
    NewWorldOk();
    RunKeepsOk(NewWorld(), actions);
    var world := Run(NewWorld(), actions);
    NeverInternal(actions);
    if world.process.Some? && Usable(world.process.value) {
      PlanIsSound(world.process.value, Replay(world.file).value.history, op);
    }
    WorldRecovers(world);
    OpenedSoundly(Disk(world.file, script), now, read);
  }

  lemma OpenedSoundly(disk: Disk, now: i64, read: IoStatus)
    requires Replay(disk.file).Ok?
    ensures var open := OpenExisting(disk, now, read); open.store.Some? ==> open.store.value.fault != InternalFault
  {
    hide Replay, HistoryOk, Recovers, OpenExisting, Settle;
    OpenOutcome(disk, now, read);
    var open := OpenExisting(disk, now, read);
    if open.result == StoreOk {
      MirrorsHealthy(open.store.value, Goal(disk.file).history);
    }
  }

  lemma {:induction false} NeverInternal(actions: seq<Action>)
    ensures var world := Run(NewWorld(), actions); world.process.Some? ==> world.process.value.fault != InternalFault
    decreases |actions|
  {
    hide WorldOk, Next;
    if actions != [] {
      var n := |actions| - 1;
      NeverInternal(actions[..n]);
      NewWorldOk();
      RunKeepsOk(NewWorld(), actions[..n]);
      NextNeverInternal(Run(NewWorld(), actions[..n]), actions[n]);
    }
  }

  lemma NextNeverInternal(world: World, action: Action)
    requires WorldOk(world) && (world.process.Some? ==> world.process.value.fault != InternalFault)
    ensures var after := Next(world, action); after.process.Some? ==> after.process.value.fault != InternalFault
  {
    hide Replay, HistoryOk, Recovers, Mirrors, PlanFor, Sound, Carry, Holds, OpenExisting, RecordHeartbeat, MarkDead,
         Apply;
    if action.Start? && world.process.None? {
      WorldRecovers(world);
      OpenedSoundly(Disk(world.file, action.script), action.now, action.read);
    } else if action.Do? && world.process.Some? && Usable(world.process.value) {
      var store, h := world.process.value, Replay(world.file).value.history;
      PlanIsSound(store, h, action.op);
      SoundCarry(store, h, Disk(world.file, action.script), PlanFor(store, action.op));
    }
  }

  lemma SoundCarry(store: Store, h: History, disk: Disk, plan: Plan)
    requires Sound(store, h, plan) && store.fault != InternalFault
    ensures Carry(store, disk, plan).store.fault != InternalFault
  {
    hide Apply, Mirrors, Append, ValidPayload;
  }

  /** A process whose store has latched a failure. */
  predicate Latched(world: World) {
    world.process.Some? && world.process.value.fault != NoFault && world.published == PublishedBy(world.process.value)
  }

  predicate NeverKilled(actions: seq<Action>) {
    forall k :: 0 <= k < |actions| ==> !actions[k].Kill?
  }

  /** While the process lives, nothing writes after a latched failure. */
  lemma {:induction false} LatchedStays(world: World, more: seq<Action>)
    requires Latched(world) && NeverKilled(more)
    ensures var after := Run(world, more);
            && Latched(after) && after.file == world.file && after.published == world.published
            && after.process.value == world.process.value.(workers := after.process.value.workers)
    decreases |more|
  {
    hide LiveConnection;
    if more != [] {
      LatchedStays(world, more[..|more| - 1]);
    }
  }

  /** A fatal result is final: whatever run led to it, it publishes nothing, and for as
      long as the process is not killed every later operation is fatal, performs no I/O
      and changes nothing, and the file and what is published stay as they are. */
  lemma FatalIsFinal(actions: seq<Action>, op: Operation, script: seq<Io>, more: seq<Action>, later: Operation,
      rest: seq<Io>)
    requires Run(NewWorld(), actions).process.Some? && NeverKilled(more)
    requires var world := Run(NewWorld(), actions);
             Execute(world.process.value, Disk(world.file, script), op).result == Fatal
    ensures var failed := Next(Run(NewWorld(), actions), Do(op, script));
            var after := Run(failed, more);
            && failed.published == Run(NewWorld(), actions).published
            && after.file == failed.file && after.published == failed.published && after.process.Some?
            && Execute(after.process.value, Disk(after.file, rest), later)
               == Step(Fatal, after.process.value, Disk(after.file, rest))
  {
    hide Run, WorldOk, Execute;
    var world := Run(NewWorld(), actions);
    NewWorldOk();
    RunKeepsOk(NewWorld(), actions);
    FatalLatches(world, op, script);
    var failed := Next(world, Do(op, script));
    LatchedStays(failed, more);
    LatchedIsSilent(Run(failed, more).process.value, Disk(Run(failed, more).file, rest), later);
  }

  lemma FatalLatches(world: World, op: Operation, script: seq<Io>)
    requires WorldOk(world) && world.process.Some?
    requires Execute(world.process.value, Disk(world.file, script), op).result == Fatal
    ensures var failed := Next(world, Do(op, script)); Latched(failed) && failed.published == world.published
  {
    hide Replay, HistoryOk, Recovers, Mirrors, PlanFor, Sound, Carry, Holds, Apply;
    var store := world.process.value;
    if store.fault == NoFault {
      var h := Replay(world.file).value.history;
      PlanIsSound(store, h, op);
      FatalCarry(store, h, Disk(world.file, script), PlanFor(store, op));
    }
  }

  lemma FatalCarry(store: Store, h: History, disk: Disk, plan: Plan)
    requires Mirrors(store, h) && Sound(store, h, plan) && Carry(store, disk, plan).result == Fatal
    ensures Carry(store, disk, plan).store.fault != NoFault
    ensures PublishedBy(Carry(store, disk, plan).store) == PublishedBy(store)
  {
    hide Apply, HistoryOk, RegistryOk, Append, ValidPayload;
  }

  lemma LatchedIsSilent(store: Store, disk: Disk, op: Operation)
    requires store.fault != NoFault
    ensures Execute(store, disk, op) == Step(Fatal, store, disk)
  {}

  /** Terminal stability, over any continuation of any run: a job published as DONE or
      FAILED is never changed again, result bytes included, and an attempt that has
      ended stays ended. */
  lemma PastIsSettled(actions: seq<Action>, more: seq<Action>, i: nat)
    requires i < |Run(NewWorld(), actions).published.jobs.jobs|
    ensures var before := Run(NewWorld(), actions).published.jobs;
            var after := Run(Run(NewWorld(), actions), more).published.jobs;
            && i < |after.jobs|
            && (IsTerminal(before.jobs[i]) ==> after.jobs[i] == before.jobs[i])
            && (forall k :: Ended(before.jobs[i], k) ==> Ended(after.jobs[i], k))
  {
    hide WorldOk, Run, Progresses;
    NewWorldOk();
    RunKeepsOk(NewWorld(), actions);
    var world := Run(NewWorld(), actions);
    RunKeepsOk(world, more);
    ProgressKeeps(world.published.jobs.jobs[i], Run(world, more).published.jobs.jobs[i]);
  }

  /** Whatever a store holds: a result other than OK publishes nothing. */
  lemma RefusalPublishesNothing(store: Store, disk: Disk, op: Operation)
    requires Execute(store, disk, op).result != StoreOk
    ensures var step := Execute(store, disk, op);
            step.store == store.(wal := step.store.wal, fault := step.store.fault)
  {
    hide PlanFor, Append;
  }

  /** The log never refuses what a healthy process prepared: an append that is
      attempted fails only through I/O or because the sequence numbers are used up. */
  lemma AppendRefusalUnreachable(actions: seq<Action>, op: Operation, script: seq<Io>)
    requires var world := Run(NewWorld(), actions); world.process.Some? && Usable(world.process.value)
    requires PlanFor(Run(NewWorld(), actions).process.value, op).Commit?
    ensures var world := Run(NewWorld(), actions);
            var plan := PlanFor(world.process.value, op);
            var out := Append(world.process.value.wal, Disk(world.file, script), plan.record);
            && out.result in {WriteOk, WriteIoError, WriteKilled, WriteSequenceExhausted}
            && (out.result == WriteSequenceExhausted <==> world.process.value.wal.nextSequence == 0)
  {
    hide Replay, Run, PlanFor, Mirrors, Sound, Append;
    NewWorldOk();
    RunKeepsOk(NewWorld(), actions);
    var world := Run(NewWorld(), actions);
    var h := Replay(world.file).value.history;
    PlanIsSound(world.process.value, h, op);
    SoundAppend(world.process.value, h, Disk(world.file, script), PlanFor(world.process.value, op));
  }

  lemma SoundAppend(store: Store, h: History, disk: Disk, plan: Plan)
    requires Mirrors(store, h) && Sound(store, h, plan) && plan.Commit?
    ensures var out := Append(store.wal, disk, plan.record);
            && out.result in {WriteOk, WriteIoError, WriteKilled, WriteSequenceExhausted}
            && (out.result == WriteSequenceExhausted <==> store.wal.nextSequence == 0)
  {
    hide Apply, HistoryOk, RegistryOk, EncodeRecord, ValidPayload, PublishedBy, PublishedIn, WorkersIssued, WriteAll,
         Sync;
    if store.wal.nextSequence != 0 {
      ValidEncodes(plan.record);
      AppendOutcome(store.wal, disk, plan.record, EncodeRecord(plan.record).value);
    }
  }

  /** Stale reports, over any continuation of any run: a report of an attempt that had
      ended is refused whoever sends it, without I/O and without any change to the jobs
      or the workers. */
  lemma StaleReportChangesNothing(actions: seq<Action>, more: seq<Action>, i: nat,
                                  workerId: u32, report: Message, now: i64, script: seq<Io>)
    requires i < |Run(NewWorld(), actions).published.jobs.jobs| && ReportIdentity(report).Some?
    requires var job := Run(NewWorld(), actions).published.jobs.jobs[i];
             ReportIdentity(report).value.jobId == job.id && Ended(job, ReportIdentity(report).value.attempt)
    requires Run(Run(NewWorld(), actions), more).process.Some?
    ensures var world := Run(Run(NewWorld(), actions), more);
            var step := Execute(world.process.value, Disk(world.file, script), ReportJob(workerId, report, now));
            && step.result != StoreOk && step.disk == Disk(world.file, script)
            && step.store == world.process.value.(fault := step.store.fault)
  {
    hide Run, Progresses, ApplyReport, JobTime, Execute, FindSlot, WorldOk, SchedulerOk;
    var before, world := Run(NewWorld(), actions), Run(Run(NewWorld(), actions), more);
    PastIsSettled(actions, more, i);
    NewWorldOk();
    RunKeepsOk(NewWorld(), actions);
    RunKeepsOk(before, more);
    var store := world.process.value;
    if Usable(store) {
      UsableIsPublished(world);
      ProgressIsSame(before.published.jobs.jobs[i], store.jobs.jobs[i]);
      StaleIn(store.jobs, i, workerId, report);
      if JobTime(store, now).Some? {
        StaleReportRejected(store.jobs, workerId, report, JobTime(store, now).value);
      }
    }
    RejectedReport(store, Disk(world.file, script), workerId, report, now);
  }

  lemma RejectedReport(store: Store, disk: Disk, workerId: u32, report: Message, now: i64)
    requires Usable(store) && JobTime(store, now).Some? ==>
               var out := ApplyReport(store.jobs, workerId, report, JobTime(store, now).value);
               out.Err? && out.error != SchedulerError.QueueError
    ensures var step := Execute(store, disk, ReportJob(workerId, report, now));
            step.result != StoreOk && step.disk == disk && step.store == store.(fault := step.store.fault)
  {
    hide ApplyReport, JobTime, ActiveSlot, FindSlot, IsAlive, PlanCommit, Append;
  }

  lemma UsableIsPublished(world: World)
    requires WorldOk(world) && world.process.Some? && Usable(world.process.value)
    ensures world.published.jobs == world.process.value.jobs && SchedulerOk(world.process.value.jobs)
  {
    hide Replay, RegistryOk, SchedulerOk;
  }

  lemma ProgressIsSame(job: Job, later: Job)
    requires Progresses(job, later)
    ensures later.id == job.id
  {}

  lemma StaleIn(s: Scheduler, i: nat, workerId: u32, report: Message)
    requires SchedulerOk(s) && i < |s.jobs| && ReportIdentity(report).Some?
    requires ReportIdentity(report).value.jobId == s.jobs[i].id
    ensures AllJobsOk(s.jobs) && FindSlot(s.jobs, ReportIdentity(report).value.jobId) == i
  {
    SlotOfId(s.jobs, i);
  }
}
