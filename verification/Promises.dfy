/** What clients and workers can rely on over any run, with kills and restarts: no ID is
    issued twice, and an acknowledged job is never lost. */
module Promises {
  import opened Base
  import opened JobModel
  import opened Messages
  import opened SchedulerModel
  import opened RegistryModel
  import opened WalFormat
  import opened WriterModel
  import opened HistoryModel
  import opened ReplayModel
  import opened StoreModel
  import opened StartupModel
  import opened Logging
  import opened Durability
  import opened Settlement
  import opened Recovery
  import opened Lifetime
  import opened Sessions

  // ---------- the log only grows ----------

  /** Nothing known to a log is forgotten by a later one. */
  ghost predicate LogGrows(h: History, later: History) {
    && StoreProgresses(h.scheduler.jobs, later.scheduler.jobs)
    && h.issued <= later.issued
    && h.highestWorkerId <= later.highestWorkerId
    && h.highestJobId <= later.highestJobId
  }

  ghost predicate FileGrows(file: bytes, later: bytes) {
    Replay(file).Ok? && Replay(later).Ok? && LogGrows(Replay(file).value.history, Replay(later).value.history)
  }

  lemma SameLog(h: History)
    ensures LogGrows(h, h)
  {
    hide Progresses;
    SameProgress(h.scheduler.jobs);
  }

  lemma LogGrowsOn(a: History, b: History, c: History)
    requires LogGrows(a, b) && LogGrows(b, c)
    ensures LogGrows(a, c)
  {
    hide StoreProgresses;
    ProgressIsTransitive(a.scheduler.jobs, b.scheduler.jobs, c.scheduler.jobs);
  }

  lemma ApplyGrows(h: History, record: Record)
    requires HistoryOk(h) && ValidPayload(record) && Apply(h, record).Ok?
    ensures LogGrows(h, Apply(h, record).value)
  {
    hide HistoryOk, ValidPayload, StoreProgresses, Candidate, FindSlot;
    ApplyProgresses(h, record);
    if record.JobSnapshot? && record.kind == JobCreated {
      CreatedIsHigher(h, record.job);
    }
  }

  lemma CreatedIsHigher(h: History, job: Job)
    requires Candidate(h, JobCreated, job).Ok?
    ensures h.highestJobId < job.id
  {
    hide FindSlot, Init;
  }

  /** Whatever part of an accepted record reached the file. */
  lemma PartlyGrows(base: bytes, h: History, record: Record, file: bytes)
    requires Holds(base, h) && HistoryOk(h) && Partly(base, h, record, file)
    ensures FileGrows(base, file) && Replay(base).value.history == h
  {
    hide Replay, HistoryOk, EncodeRecord, Apply, LogGrows;
    SameLog(h);
    if file != base {
      var k: nat :| Extends(base, h, record, k, file);
      ReplayInFlight(base, h, record, k, file);
      EncodedIsValid(record);
      ApplyGrows(h, record);
    }
  }

  lemma {:induction false} ReconcileGrows(store: Store, h: History, disk: Disk, i: nat, now: i64)
    requires AtStartup(store, h, now) && Holds(disk.file, h)
    ensures FileGrows(disk.file, Reconcile(store, disk, i, now).disk.file)
    decreases STORE_CAPACITY - i
  {
    hide HistoryOk, Replay, PlanLoss, EncodeRecord, Apply, Carry, Lost, Sound, RegistryOk, LogGrows;
    SameLog(h);
    if i < |store.jobs.jobs| && i < STORE_CAPACITY {
      if !IsActive(store.jobs.jobs[i]) {
        ReconcileGrows(store, h, disk, i + 1, now);
      } else if h.lastSequence == U64_MAX {
        ExhaustedStops(store, h, disk, i, now);
      } else {
        LossPlan(store, h, i, now);
        var plan := PlanLoss(store, store.jobs.jobs[i].workerId, now);
        CarryCommits(store, h, disk, plan);
        LossRecordApplies(h, i);
        var step := Carry(store, disk, plan);
        if step.result == StoreOk {
          var next := AfterLoss(h, i);
          var settled := step.store.(interrupted := step.store.interrupted + 1);
          assert Mirrors(step.store, next) by { SoundMirrors(store, h, plan); }
          ReconcileGrows(settled, next, step.disk, i + 1, now);
          ApplyGrows(h, LossRecord(h, i));
          LogGrowsOn(h, next, Replay(Reconcile(settled, step.disk, i + 1, now).disk.file).value.history);
        } else {
          PartlyGrows(disk.file, h, plan.record, step.disk.file);
        }
      }
    }
  }

  lemma OpenGrows(disk: Disk, now: i64, read: IoStatus)
    requires Replay(disk.file).Ok?
    ensures FileGrows(disk.file, OpenExisting(disk, now, read).disk.file)
  {
    hide Replay, HistoryOk, Reconcile, Repair, RegistryOk, LogGrows;
    ValidPartHolds(disk.file);
    var h := Replay(disk.file).value.history;
    SameLog(h);
    RepairOutcome(disk);
    var repaired := Repair(disk);
    if now >= 0 && read == IoOk && repaired.0 == IoOk {
      RecoveredMirrors(h, now);
      ReconcileGrows(Recovered(h, now), h, repaired.1, 0, now);
    }
  }

  lemma CarryGrows(store: Store, h: History, disk: Disk, plan: Plan)
    requires Mirrors(store, h) && Holds(disk.file, h) && Sound(store, h, plan)
    ensures FileGrows(disk.file, Carry(store, disk, plan).disk.file)
  {
    hide Replay, HistoryOk, Apply, RegistryOk, EncodeRecord, ValidPayload, LogGrows, Append;
    SameLog(h);
    if plan.Commit? {
      CarryCommits(store, h, disk, plan);
      if Carry(store, disk, plan).result == StoreOk {
        ApplyGrows(h, plan.record);
      } else {
        PartlyGrows(disk.file, h, plan.record, Carry(store, disk, plan).disk.file);
      }
    }
  }

  lemma NextGrows(world: World, action: Action)
    requires WorldOk(world)
    ensures FileGrows(world.file, Next(world, action).file)
  {
    hide Replay, HistoryOk, Recovers, Mirrors, PlanFor, Sound, Carry, Holds, OpenExisting, RecordHeartbeat, MarkDead,
         LogGrows, Apply;
    WorldRecovers(world);
    SameLog(Replay(world.file).value.history);
    if action.Start? && world.process.None? {
      OpenGrows(Disk(world.file, action.script), action.now, action.read);
    } else if action.Do? && world.process.Some? && Usable(world.process.value) {
      var store, h := world.process.value, Replay(world.file).value.history;
      PlanIsSound(store, h, action.op);
      CarryGrows(store, h, Disk(world.file, action.script), PlanFor(store, action.op));
    }
  }

  /** Over any run, whatever a restart would find is found again by every later one. */
  lemma {:induction false} RunGrows(world: World, actions: seq<Action>)
    requires WorldOk(world)
    ensures FileGrows(world.file, Run(world, actions).file)
    decreases |actions|
  {
    hide WorldOk, Next, Replay, LogGrows;
    if actions == [] {
      NextGrows(world, Kill);
      KillKeepsFile(world);
    } else {
      var n := |actions| - 1;
      RunGrows(world, actions[..n]);
      RunKeepsOk(world, actions[..n]);
      var before := Run(world, actions[..n]);
      NextGrows(before, actions[n]);
      LogGrowsOn(Replay(world.file).value.history, Replay(before.file).value.history,
                 Replay(Run(world, actions).file).value.history);
    }
  }

  lemma KillKeepsFile(world: World)
    ensures Next(world, Kill).file == world.file
  {}

  // ---------- IDs ----------

  /** The history a restart would find. */
  ghost function Log(world: World): History
    requires Replay(world.file).Ok?
  {
    Replay(world.file).value.history
  }

  /** A registration that succeeds issues an ID above every ID in the log, and logs it. */
  lemma RegistrationIsFresh(world: World, fd: int, now: i64, script: seq<Io>)
    requires WorldOk(world) && world.process.Some?
    requires Execute(world.process.value, Disk(world.file, script), RegisterWorker(fd, now)).result == StoreOk
    ensures var id := world.process.value.workers.nextWorkerId;
            var after := Next(world, Do(RegisterWorker(fd, now), script));
            && WorldOk(after) && Replay(world.file).Ok? && Replay(after.file).Ok?
            && Log(world).highestWorkerId < id && id !in Log(world).issued
            && id == Log(after).highestWorkerId && id in Log(after).issued
  {
    hide Replay, Recovers, Sound, HistoryOk, RegistryOk, Register, Append, EncodeRecord, WorldOk;
    var store, disk := world.process.value, Disk(world.file, script);
    HealthyMirrors(world);
    var h := Log(world);
    PlanIsSound(store, h, RegisterWorker(fd, now));
    RegistrationPlan(store, fd, now);
    CarryCommits(store, h, disk, PlanFor(store, RegisterWorker(fd, now)));
    ExecuteKeepsOk(world, RegisterWorker(fd, now), script);
    AllocatorAhead(h);
  }

  /** Only a healthy process can succeed, and it mirrors the log. */
  lemma HealthyMirrors(world: World)
    requires WorldOk(world) && world.process.Some?
    ensures Usable(world.process.value) ==>
              && Replay(world.file).Ok? && Holds(world.file, Log(world)) && Mirrors(world.process.value, Log(world))
              && HistoryOk(Log(world))
    ensures world.process.value.fault == NoFault ==> world.process.value.isOpen
  {
    hide Replay, HistoryOk, RegistryOk;
  }

  lemma RegistrationPlan(store: Store, fd: int, now: i64)
    ensures var plan := PlanFor(store, RegisterWorker(fd, now));
            plan.Commit? ==>
              && plan.record == WorkerAllocated(store.wal.nextSequence, store.workers.nextWorkerId)
              && store.workers.nextWorkerId != 0
  {
    hide FreeSlot;
  }

  lemma AllocatorAhead(h: History)
    requires HistoryOk(h)
    ensures h.nextWorkerId != 0 ==> h.highestWorkerId < h.nextWorkerId && h.nextWorkerId !in h.issued
    ensures h.scheduler.nextJobId != 0 ==> h.highestJobId < h.scheduler.nextJobId
  {}

  /** No worker ID is issued twice: over any run, with kills and restarts in between, a
      later registration issues a higher ID, and one that replay of the log does not
      find, not even in a complete record whose append reported failure. */
  lemma WorkerIdsAreUnique(actions: seq<Action>, fd: int, now: i64, script: seq<Io>,
                           more: seq<Action>, fd': int, now': i64, script': seq<Io>)
    requires Run(NewWorld(), actions).process.Some?
    requires var world := Run(NewWorld(), actions);
             Execute(world.process.value, Disk(world.file, script), RegisterWorker(fd, now)).result == StoreOk
    requires var later := Run(Next(Run(NewWorld(), actions), Do(RegisterWorker(fd, now), script)), more);
             && later.process.Some?
             && Execute(later.process.value, Disk(later.file, script'), RegisterWorker(fd', now')).result == StoreOk
    ensures var world := Run(NewWorld(), actions);
            var later := Run(Next(world, Do(RegisterWorker(fd, now), script)), more);
            && world.process.value.workers.nextWorkerId < later.process.value.workers.nextWorkerId
            && Replay(later.file).Ok? && later.process.value.workers.nextWorkerId !in Log(later).issued
  {
    hide WorldOk, Run, Execute, Replay, StoreProgresses;
    var world := Run(NewWorld(), actions);
    NewWorldOk();
    RunKeepsOk(NewWorld(), actions);
    RegistrationIsFresh(world, fd, now, script);
    var issued := Next(world, Do(RegisterWorker(fd, now), script));
    RunKeepsOk(issued, more);
    RunGrows(issued, more);
    RegistrationIsFresh(Run(issued, more), fd', now', script');
  }

  /** The job with this ID holds what was submitted. */
  predicate HeldAt(jobs: seq<Job>, slot: nat, id: u64, submission: Submission) {
    && slot < |jobs| && jobs[slot].id == id
    && jobs[slot].taskType == submission.taskType && jobs[slot].arguments == submission.arguments
    && jobs[slot].maxRetries == submission.maxRetries
  }

  ghost predicate HoldsJob(jobs: seq<Job>, id: u64, submission: Submission) {
    exists slot: nat :: HeldAt(jobs, slot, id, submission)
  }

  lemma HeldStays(jobs: seq<Job>, later: seq<Job>, id: u64, submission: Submission)
    requires HoldsJob(jobs, id, submission) && StoreProgresses(jobs, later)
    ensures HoldsJob(later, id, submission)
  {
    var slot: nat :| HeldAt(jobs, slot, id, submission);
    assert Progresses(jobs[slot], later[slot]);
    assert HeldAt(later, slot, id, submission);
  }

  /** A submission that succeeds issues an ID above every ID in the log, and logs the
      job. */
  lemma SubmissionIsFresh(world: World, submission: Submission, now: i64, script: seq<Io>)
    requires WorldOk(world) && world.process.Some?
    requires Execute(world.process.value, Disk(world.file, script), SubmitJob(submission, now)).result == StoreOk
    ensures var id := world.process.value.jobs.nextJobId;
            var after := Next(world, Do(SubmitJob(submission, now), script));
            && WorldOk(after) && Replay(world.file).Ok? && Replay(after.file).Ok?
            && Log(world).highestJobId < id == Log(after).highestJobId
            && HoldsJob(Log(after).scheduler.jobs, id, submission)
  {
    hide Replay, Recovers, Sound, HistoryOk, RegistryOk, Append, EncodeRecord, WorldOk, PlanFor, Apply, HoldsJob;
    var store, disk := world.process.value, Disk(world.file, script);
    HealthyMirrors(world);
    var h := Log(world);
    PlanIsSound(store, h, SubmitJob(submission, now));
    var plan := PlanFor(store, SubmitJob(submission, now));
    SuccessCommits(store, h, disk, plan);
    CarryCommits(store, h, disk, plan);
    ExecuteKeepsOk(world, SubmitJob(submission, now), script);
    AllocatorAhead(h);
    SubmissionPlan(store, h, submission, now);
    CreationApplied(h, plan.record);
  }

  lemma SuccessCommits(store: Store, h: History, disk: Disk, plan: Plan)
    requires Sound(store, h, plan) && Carry(store, disk, plan).result == StoreOk
    ensures plan.Commit? && Apply(h, plan.record).Ok?
  {
    hide Apply, Mirrors, Append, ValidPayload;
  }

  lemma SubmissionPlan(store: Store, h: History, submission: Submission, now: i64)
    requires Mirrors(store, h) && PlanFor(store, SubmitJob(submission, now)).Commit?
    ensures var plan := PlanFor(store, SubmitJob(submission, now));
            && plan.record.JobSnapshot? && plan.record.kind == JobCreated
            && store.jobs.nextJobId != 0 && HeldAt([plan.record.job], 0, store.jobs.nextJobId, submission)
  {
    hide FindSlot, JobTime, Submit, HistoryOk, RegistryOk, WorkersIssued, ApplySnapshot, JobOk;
    var time := JobTime(store, now).value;
    JobTimeAdvances(store, now);
    SubmitIsReplayable(h, submission, time, h.lastSequence);
    SubmittedIs(store.jobs, submission, time);
  }

  lemma SubmittedIs(s: Scheduler, submission: Submission, now: i64)
    ensures var out := Submit(s, submission, now);
            out.Ok? ==> s.nextJobId != 0 && HeldAt([out.value.job], 0, s.nextJobId, submission)
  {
    hide Push;
  }

  lemma CreationApplied(h: History, record: Record)
    requires record.JobSnapshot? && record.kind == JobCreated && Apply(h, record).Ok?
    ensures var after := Apply(h, record).value;
            && after.highestJobId == record.job.id
            && (forall id, submission :: HeldAt([record.job], 0, id, submission) ==>
                  HoldsJob(after.scheduler.jobs, id, submission))
  {
    hide Candidate, Push, FindSlot;
    var after := Apply(h, record).value;
    forall id, submission | HeldAt([record.job], 0, id, submission)
      ensures HoldsJob(after.scheduler.jobs, id, submission)
    {
      assert HeldAt(after.scheduler.jobs, |h.scheduler.jobs|, id, submission);
    }
  }

  /** No job ID is issued twice, over any run. */
  lemma JobIdsAreUnique(actions: seq<Action>, submission: Submission, now: i64, script: seq<Io>,
                        more: seq<Action>, submission': Submission, now': i64, script': seq<Io>)
    requires Run(NewWorld(), actions).process.Some?
    requires var world := Run(NewWorld(), actions);
             Execute(world.process.value, Disk(world.file, script), SubmitJob(submission, now)).result == StoreOk
    requires var later := Run(Next(Run(NewWorld(), actions), Do(SubmitJob(submission, now), script)), more);
             && later.process.Some?
             && Execute(later.process.value, Disk(later.file, script'), SubmitJob(submission', now')).result == StoreOk
    ensures var world := Run(NewWorld(), actions);
            var later := Run(Next(world, Do(SubmitJob(submission, now), script)), more);
            && world.process.value.jobs.nextJobId < later.process.value.jobs.nextJobId
            && Replay(later.file).Ok? && Log(later).highestJobId < later.process.value.jobs.nextJobId
  {
    hide WorldOk, Run, Execute, Replay, StoreProgresses, HoldsJob;
    var world := Run(NewWorld(), actions);
    NewWorldOk();
    RunKeepsOk(NewWorld(), actions);
    SubmissionIsFresh(world, submission, now, script);
    var issued := Next(world, Do(SubmitJob(submission, now), script));
    RunKeepsOk(issued, more);
    RunGrows(issued, more);
    SubmissionIsFresh(Run(issued, more), submission', now', script');
  }

  /** An acknowledged job is never lost: once its submission has succeeded, in every
      continuation of the run, with any kills, cut appends and restarts, the log replays
      to a store that holds the job as it was submitted, and so does what is published. */
  lemma AcknowledgedJobIsKept(actions: seq<Action>, submission: Submission, now: i64, script: seq<Io>,
                              more: seq<Action>)
    requires Run(NewWorld(), actions).process.Some?
    requires var world := Run(NewWorld(), actions);
             Execute(world.process.value, Disk(world.file, script), SubmitJob(submission, now)).result == StoreOk
    ensures var world := Run(NewWorld(), actions);
            var later := Run(Next(world, Do(SubmitJob(submission, now), script)), more);
            var id := world.process.value.jobs.nextJobId;
            && Replay(later.file).Ok? && HoldsJob(Log(later).scheduler.jobs, id, submission)
            && HoldsJob(later.published.jobs.jobs, id, submission)
  {
    hide WorldOk, Run, Execute, Replay, StoreProgresses, HoldsJob;
    var world := Run(NewWorld(), actions);
    NewWorldOk();
    RunKeepsOk(NewWorld(), actions);
    SubmissionIsFresh(world, submission, now, script);
    SubmissionIsPublished(world, submission, now, script);
    var issued := Next(world, Do(SubmitJob(submission, now), script));
    RunKeepsOk(issued, more);
    RunGrows(issued, more);
    var later := Run(issued, more);
    var id := world.process.value.jobs.nextJobId;
    HeldStays(Log(issued).scheduler.jobs, Log(later).scheduler.jobs, id, submission);
    HeldStays(issued.published.jobs.jobs, later.published.jobs.jobs, id, submission);
  }

  lemma SubmissionIsPublished(world: World, submission: Submission, now: i64, script: seq<Io>)
    requires WorldOk(world) && world.process.Some?
    requires Execute(world.process.value, Disk(world.file, script), SubmitJob(submission, now)).result == StoreOk
    requires Replay(Next(world, Do(SubmitJob(submission, now), script)).file).Ok?
    ensures var after := Next(world, Do(SubmitJob(submission, now), script));
            after.published.jobs == Log(after).scheduler
  {
    hide Replay, Recovers, Sound, HistoryOk, RegistryOk, Execute;
    ExecuteKeepsOk(world, SubmitJob(submission, now), script);
    SuccessIsHealthy(world.process.value, Disk(world.file, script), SubmitJob(submission, now));
  }

  lemma SuccessIsHealthy(store: Store, disk: Disk, op: Operation)
    requires Execute(store, disk, op).result == StoreOk
    ensures Execute(store, disk, op).store.fault == NoFault
  {
    hide Register, Submit, Dispatch, ApplyReport, LoseWorker, ActiveSlot, FindSlot, JobTime, IsAlive, Append;
  }
}
