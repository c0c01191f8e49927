/** The bindings between jobs, workers and connections that the event loop keeps. */
module Leases {
  import opened Base
  import opened JobModel
  import opened Messages
  import opened SchedulerModel
  import opened RegistryModel
  import opened WriterModel
  import opened HistoryModel
  import opened WalFormat
  import opened ReplayModel
  import opened StoreModel
  import opened Durability
  import opened Sessions
  import opened Protocol
  import opened EventLoop

  // ---------- live workers ----------

  predicate AliveOn(registry: Registry, id: u32, fd: int) {
    exists s :: 0 <= s < |registry.workers| && LiveAs(registry.workers[s], id, fd)
  }

  predicate LiveAs(w: Worker, id: u32, fd: int) {
    w.state == Alive && w.id == id && w.fd == fd
  }

  predicate AliveId(registry: Registry, id: u32) {
    exists s :: 0 <= s < |registry.workers| && registry.workers[s].state == Alive && registry.workers[s].id == id
  }

  lemma AliveConnection(registry: Registry, id: u32, fd: int)
    requires RegistryOk(registry) && AliveOn(registry, id, fd)
    ensures IsAlive(registry, id) && LiveConnection(registry, id, fd).Ok?
  {
    var s :| 0 <= s < |registry.workers| && LiveAs(registry.workers[s], id, fd);
    SlotOfWorker(registry, s);
  }

  lemma AliveIds(registry: Registry, id: u32)
    requires RegistryOk(registry)
    ensures IsAlive(registry, id) <==> AliveId(registry, id)
  {
    if AliveId(registry, id) {
      var s :| 0 <= s < |registry.workers| && registry.workers[s].state == Alive && registry.workers[s].id == id;
      SlotOfWorker(registry, s);
    }
  }

  /** Registration adds one live worker and leaves the others where they are. */
  lemma RegisterAdds(registry: Registry, fd: int, now: i64)
    requires RegistryOk(registry) && Register(registry, fd, now).Ok?
    ensures var next := Register(registry, fd, now).value;
            && AliveOn(next, registry.nextWorkerId, fd)
            && (forall id, f :: AliveOn(registry, id, f) ==> AliveOn(next, id, f))
            && (forall id :: AliveId(registry, id) ==> AliveId(next, id))
            && (forall s :: 0 <= s < |next.workers| && next.workers[s].state == Alive ==>
                  LiveAs(next.workers[s], registry.nextWorkerId, fd)
                  || AliveOn(registry, next.workers[s].id, next.workers[s].fd))
  {
    hide RegistryOk;
    var next := Register(registry, fd, now).value;
    var slot := FreeSlot(registry.workers);
    assert LiveAs(next.workers[slot], registry.nextWorkerId, fd);
    forall id, f | AliveOn(registry, id, f) ensures AliveOn(next, id, f) {
      var s :| 0 <= s < |registry.workers| && LiveAs(registry.workers[s], id, f);
      assert LiveAs(next.workers[s], id, f);
    }
    forall id | AliveId(registry, id) ensures AliveId(next, id) {
      var s :| 0 <= s < |registry.workers| && registry.workers[s].state == Alive && registry.workers[s].id == id;
      assert next.workers[s] == registry.workers[s];
    }
    forall s | 0 <= s < |next.workers| && next.workers[s].state == Alive && s != slot
      ensures AliveOn(registry, next.workers[s].id, next.workers[s].fd)
    {
      assert LiveAs(registry.workers[s], next.workers[s].id, next.workers[s].fd);
    }
  }

  /** A heartbeat changes no binding. */
  lemma HeartbeatBinds(registry: Registry, id: u32, fd: int, now: i64)
    requires RecordHeartbeat(registry, id, fd, now).Ok?
    ensures var next := RecordHeartbeat(registry, id, fd, now).value;
            && |next.workers| == |registry.workers|
            && (forall s :: 0 <= s < |next.workers| ==>
                  next.workers[s].state == registry.workers[s].state && next.workers[s].id == registry.workers[s].id
                  && next.workers[s].fd == registry.workers[s].fd)
            && (forall i, f :: AliveOn(registry, i, f) ==> AliveOn(next, i, f))
            && (forall i :: AliveId(registry, i) ==> AliveId(next, i))
  {
    var next := RecordHeartbeat(registry, id, fd, now).value;
    forall i, f | AliveOn(registry, i, f) ensures AliveOn(next, i, f) {
      var s :| 0 <= s < |registry.workers| && LiveAs(registry.workers[s], i, f);
      assert LiveAs(next.workers[s], i, f);
    }
    forall i | AliveId(registry, i) ensures AliveId(next, i) {
      var s :| 0 <= s < |registry.workers| && registry.workers[s].state == Alive && registry.workers[s].id == i;
      assert next.workers[s].state == Alive && next.workers[s].id == i;
    }
  }

  /** Death takes away exactly one live worker. */
  lemma DeathUnbinds(registry: Registry, id: u32, fd: int)
    requires RegistryOk(registry) && AliveOn(registry, id, fd)
    ensures MarkDead(registry, id, fd).Ok?
    ensures var next := MarkDead(registry, id, fd).value;
            && RegistryOk(next)
            && (forall i, f :: i != id && AliveOn(registry, i, f) ==> AliveOn(next, i, f))
            && (forall i :: i != id && AliveId(registry, i) ==> AliveId(next, i))
            && (forall s :: 0 <= s < |next.workers| && next.workers[s].state == Alive ==>
                  next.workers[s].id != id && next.workers[s] == registry.workers[s])
            && |next.workers| == |registry.workers|
  {
    hide RegistryOk;
    AliveConnection(registry, id, fd);
    MarkDeadOk(registry, id, fd);
    var next := MarkDead(registry, id, fd).value;
    var slot := WorkerSlot(registry.workers, id);
    forall i, f | i != id && AliveOn(registry, i, f) ensures AliveOn(next, i, f) {
      var s :| 0 <= s < |registry.workers| && LiveAs(registry.workers[s], i, f);
      assert LiveAs(next.workers[s], i, f);
    }
    forall i | i != id && AliveId(registry, i) ensures AliveId(next, i) {
      var s :| 0 <= s < |registry.workers| && registry.workers[s].state == Alive && registry.workers[s].id == i;
      assert next.workers[s] == registry.workers[s];
    }
    forall s | 0 <= s < |next.workers| && next.workers[s].state == Alive ensures next.workers[s].id != id {
      if registry.workers[s].id == id {
        AliveWorkersDiffer(registry, s, slot);
      }
    }
  }

  lemma AliveWorkersDiffer(registry: Registry, s: nat, t: nat)
    requires RegistryOk(registry) && s < |registry.workers| && t < |registry.workers|
    requires Used(registry.workers[s]) && Used(registry.workers[t]) && registry.workers[s].id == registry.workers[t].id
    ensures s == t
  {}

  // ---------- leases under the store's operations ----------

  /** Every active job belongs to a live worker. */
  predicate LeasesAlive(jobs: seq<Job>, registry: Registry) {
    forall k :: 0 <= k < |jobs| && IsActive(jobs[k]) ==> AliveId(registry, jobs[k].workerId)
  }

  /** No active job belongs to this worker. */
  predicate HoldsNothing(jobs: seq<Job>, id: u32) {
    forall k :: 0 <= k < |jobs| && IsActive(jobs[k]) ==> jobs[k].workerId != id
  }

  /** Every lease in `after` was there before, or belongs to `id`. */
  predicate LeasesFrom(before: seq<Job>, after: seq<Job>, id: u32) {
    forall k :: 0 <= k < |after| && IsActive(after[k]) ==>
      after[k].workerId == id || (k < |before| && IsActive(before[k]) && before[k].workerId == after[k].workerId)
  }

  lemma SubmitLeases(s: Scheduler, submission: Submission, now: i64)
    ensures var out := Submit(s, submission, now); out.Ok? ==> LeasesFrom(s.jobs, out.value.next.jobs, 0)
  {}

  lemma DispatchLeases(s: Scheduler, workerId: u32, now: i64)
    ensures var out := Dispatch(s, workerId, now); out.Ok? ==> LeasesFrom(s.jobs, out.value.next.jobs, workerId)
  {
    hide FindSlot, ActiveSlot;
  }

  lemma ReportLeases(s: Scheduler, workerId: u32, report: Message, now: i64)
    ensures var out := ApplyReport(s, workerId, report, now); out.Ok? ==> LeasesFrom(s.jobs, out.value.next.jobs, 0)
  {
    hide FindSlot;
  }

  lemma LossLeases(s: Scheduler, workerId: u32, now: i64)
    requires SchedulerOk(s)
    ensures var out := LoseWorker(s, workerId, now);
            out.Ok? ==> LeasesFrom(s.jobs, out.value.next.jobs, 0) && HoldsNothing(out.value.next.jobs, workerId)
  {
    hide ActiveSlot;
    var out := LoseWorker(s, workerId, now);
    if out.Ok? {
      var slot := ActiveSlot(s.jobs, workerId);
      SlotOfId(s.jobs, slot);
      hide FindSlot, ValidSnapshot;
      forall k | 0 <= k < |s.jobs| && k != slot && IsActive(s.jobs[k]) ensures s.jobs[k].workerId != workerId {
        SlotOfLease(s.jobs, k);
      }
    }
  }

  lemma LeasesMove(before: seq<Job>, after: seq<Job>, id: u32, registry: Registry)
    requires LeasesAlive(before, registry) && LeasesFrom(before, after, id)
    requires id != 0 ==> AliveId(registry, id)
    requires AllJobsOk(after)
    ensures LeasesAlive(after, registry)
  {
    forall k | 0 <= k < |after| && IsActive(after[k]) ensures AliveId(registry, after[k].workerId) {
      assert JobOk(after[k]);
    }
  }

  /** What a committed plan does to the leases and to the registry. */
  lemma PlanLeases(store: Store, h: History, op: Operation)
    requires Mirrors(store, h) && LeasesAlive(store.jobs.jobs, store.workers)
    requires PlanFor(store, op).Commit?
    ensures var plan := PlanFor(store, op);
            && LeasesAlive(plan.jobs.jobs, plan.workers)
            && (op.LoseWorkerOf? ==> HoldsNothing(plan.jobs.jobs, op.workerId))
            && (if op.RegisterWorker? then Register(store.workers, op.fd, op.now) == Ok(plan.workers)
                else plan.workers == store.workers)
  {
    hide HistoryOk, RegistryOk, LeasesAlive, LeasesFrom, HoldsNothing, AliveId, Submit, Dispatch, ApplyReport,
         LoseWorker, ActiveSlot, FindSlot, JobTime, Sound, IsAlive, SchedulerOk;
    var plan := PlanFor(store, op);
    PlanIsSound(store, h, op);
    PlanJobsOk(store, h, plan);
    match op {
      case RegisterWorker(fd, now) =>
        RegisterAdds(store.workers, fd, now);
        AliveGrows(store.jobs.jobs, store.workers, plan.workers);
      case SubmitJob(submission, now) =>
        var time := JobTime(store, now).value;
        SubmitLeases(store.jobs, submission, time);
        LeasesMove(store.jobs.jobs, plan.jobs.jobs, 0, store.workers);
      case AssignJob(workerId, now) =>
        DispatchLeases(store.jobs, workerId, JobTime(store, now).value);
        AliveIds(store.workers, workerId);
        LeasesMove(store.jobs.jobs, plan.jobs.jobs, workerId, store.workers);
      case ReportJob(workerId, report, now) =>
        ReportLeases(store.jobs, workerId, report, JobTime(store, now).value);
        LeasesMove(store.jobs.jobs, plan.jobs.jobs, 0, store.workers);
      case LoseWorkerOf(workerId, now) =>
        MirrorsScheduler(store, h);
        LossLeases(store.jobs, workerId, JobTime(store, now).value);
        LeasesMove(store.jobs.jobs, plan.jobs.jobs, 0, store.workers);
    }
  }

  lemma AliveGrows(jobs: seq<Job>, before: Registry, after: Registry)
    requires LeasesAlive(jobs, before) && forall id :: AliveId(before, id) ==> AliveId(after, id)
    ensures LeasesAlive(jobs, after)
  {}

  lemma MirrorsScheduler(store: Store, h: History)
    requires Mirrors(store, h)
    ensures SchedulerOk(store.jobs) && RegistryOk(store.workers)
  {}

  lemma PlanJobsOk(store: Store, h: History, plan: Plan)
    requires Sound(store, h, plan) && plan.Commit?
    ensures AllJobsOk(plan.jobs.jobs)
  {
    hide Apply, JobOk;
  }

  // ---------- one operation of the loop ----------

  /** The store of a running loop mirrors its log. */
  ghost predicate Durable(store: Store, file: bytes) {
    store.fault == NoFault && WorldOk(World(file, Some(store), PublishedBy(store)))
  }

  lemma DurableMirrors(store: Store, file: bytes)
    requires Durable(store, file)
    ensures Replay(file).Ok? && Mirrors(store, Replay(file).value.history) && Usable(store)
    ensures SchedulerOk(store.jobs) && RegistryOk(store.workers)
  {
    hide Replay;
  }

  /** An operation commits its plan, or changes nothing, or ends the run. */
  lemma ExecuteOutcome(store: Store, disk: Disk, op: Operation)
    requires Durable(store, disk.file) && LeasesAlive(store.jobs.jobs, store.workers)
    ensures var step := Execute(store, disk, op);
            var plan := PlanFor(store, op);
            && (step.result == StoreOk ==>
                  && Durable(step.store, step.disk.file)
                  && plan.Commit? && step.store.jobs == plan.jobs && step.store.workers == plan.workers
                  && LeasesAlive(step.store.jobs.jobs, step.store.workers)
                  && (op.LoseWorkerOf? ==> HoldsNothing(step.store.jobs.jobs, op.workerId))
                  && (if op.RegisterWorker? then Register(store.workers, op.fd, op.now) == Ok(step.store.workers)
                      else step.store.workers == store.workers))
            && (step.result == Fatal ==> step.store.fault != NoFault)
            && (step.result == Rejected || step.result == NothingToDo ==>
                  step.store == store && step.disk == disk && plan == Refuse(step.result, NoFault))
  {
    hide Replay, Mirrors, PlanFor, LeasesAlive, HoldsNothing, RegistryOk, SchedulerOk, Register, Apply, EncodeRecord,
         Recovers;
    DurableMirrors(store, disk.file);
    var h := Replay(disk.file).value.history;
    var plan := PlanFor(store, op);
    PlanIsSound(store, h, op);
    CarryKeepsOk(store, h, disk, plan);
    if plan.Commit? {
      CarryCommits(store, h, disk, plan);
      PlanLeases(store, h, op);
    }
  }
}
