/** Reconciliation as a function of the history alone, and what it promises. */
module Settlement {
  import opened Base
  import opened JobModel
  import opened SchedulerModel
  import opened WalFormat
  import opened HistoryModel
  import opened ReplayModel
  import opened Logging
  import opened Durability
  import opened RegistryModel
  import opened WriterModel
  import opened StoreModel
  import opened StartupModel

  /** An active job after its attempt is charged as lost at the recovered time. */
  function Lost(h: History, job: Job): Job
    requires JobOk(job) && IsActive(job) && job.updatedAt <= h.timeBase
  {
    FailOk(job, job.workerId, job.attempt, WorkerLost, h.timeBase);
    Fail(job, job.workerId, job.attempt, WorkerLost, h.timeBase).value
  }

  /** A job that reconciliation has to settle at this point. */
  predicate Unsettled(h: History, i: nat) {
    && HistoryOk(h) && h.lastSequence < U64_MAX
    && i < |h.scheduler.jobs| && IsActive(h.scheduler.jobs[i])
  }

  function LossRecord(h: History, i: nat): Record
    requires Unsettled(h, i)
  {
    var job := Lost(h, h.scheduler.jobs[i]);
    JobSnapshot(KindOf(job), h.lastSequence + 1, job)
  }

  /** The history after the loss of job `i` is logged: that job is settled, and joins
      the queue's tail if it may be retried. */
  function AfterLoss(h: History, i: nat): History
    requires Unsettled(h, i)
  {
    var s := h.scheduler;
    var job := Lost(h, s.jobs[i]);
    h.(scheduler := s.(jobs := s.jobs[i := job],
                       pending := if job.state == Queued then s.pending + [job.id] else s.pending),
       lastSequence := h.lastSequence + 1)
  }

  lemma LoseWorkerIsLoss(h: History, i: nat)
    requires Unsettled(h, i)
    ensures LoseWorker(h.scheduler, h.scheduler.jobs[i].workerId, h.timeBase)
            == Ok(Change(AfterLoss(h, i).scheduler, Lost(h, h.scheduler.jobs[i])))
    ensures ActiveSlot(h.scheduler.jobs, h.scheduler.jobs[i].workerId) == i
  {
    hide FindSlot, ActiveSlot;
    var s := h.scheduler;
    var job := Lost(h, s.jobs[i]);
    SlotOfLease(s.jobs, i);
    SlotOfId(s.jobs, i);
    FailOk(s.jobs[i], s.jobs[i].workerId, s.jobs[i].attempt, WorkerLost, h.timeBase);
    if job.state == Queued {
      RoomToRequeue(s, i);
    }
  }

  /** The loss record is accepted and leads to exactly that history. */
  lemma LossRecordApplies(h: History, i: nat)
    requires Unsettled(h, i)
    ensures ValidPayload(LossRecord(h, i)) && EncodeRecord(LossRecord(h, i)).Ok?
    ensures Apply(h, LossRecord(h, i)) == Ok(AfterLoss(h, i))
    ensures HistoryOk(AfterLoss(h, i)) && !IsActive(Lost(h, h.scheduler.jobs[i]))
  {
    hide ValidSnapshot, FindSlot, ActiveSlot, HistoryOk, ApplySnapshot, LoseWorker, Lost;
    LoseWorkerIsLoss(h, i);
    LossIsReplayable(h, h.scheduler.jobs[i].workerId, h.timeBase, h.lastSequence + 1);
    ApplyKeepsOk(h, LossRecord(h, i));
    ValidEncodes(LossRecord(h, i));
  }

  // ---------- settling every interrupted job ----------

  /** The history and the log bytes that settling all jobs from slot `i` on produces;
      incomplete only if the sequence numbers run out. */
  datatype Settled = Settled(history: History, log: bytes, complete: bool)

  function Settle(h: History, i: nat): Settled
    requires HistoryOk(h)
    decreases |h.scheduler.jobs| - i
  {
    hide EncodeRecord, HistoryOk, Apply;
    if i >= |h.scheduler.jobs| then Settled(h, [], true)
    else if !IsActive(h.scheduler.jobs[i]) then Settle(h, i + 1)
    else if h.lastSequence == U64_MAX then Settled(h, [], false)
    else
      LossRecordApplies(h, i);
      var rest := Settle(AfterLoss(h, i), i + 1);
      rest.(log := EncodeRecord(LossRecord(h, i)).value + rest.log)
  }

  predicate SettledBefore(h: History, i: nat) {
    forall k :: 0 <= k < i && k < |h.scheduler.jobs| ==> !IsActive(h.scheduler.jobs[k])
  }

  lemma {:induction false} SettleSkips(h: History, i: nat, j: nat)
    requires HistoryOk(h) && SettledBefore(h, i) && j <= i
    ensures Settle(h, j) == Settle(h, i)
    decreases i - j
  {
    hide HistoryOk;
    if j < i {
      SettleSkips(h, i, j + 1);
    }
  }

  /** What a startup is heading for, from whatever a crash left in the file. */
  function GoalFile(file: bytes): bytes
    requires Replay(file).Ok? && HistoryOk(Replay(file).value.history)
  {
    ValidPart(file) + Settle(Replay(file).value.history, 0).log
  }

  function Goal(file: bytes): Settled
    requires Replay(file).Ok? && HistoryOk(Replay(file).value.history)
  {
    Settle(Replay(file).value.history, 0)
  }

  /** A file that holds part or all of the next loss record has the same goal. */
  lemma GoalUnmoved(base: bytes, h: History, i: nat, file: bytes)
    requires Holds(base, h) && Unsettled(h, i) && SettledBefore(h, i)
    requires Partly(base, h, LossRecord(h, i), file)
    ensures Replay(file).Ok? && HistoryOk(Replay(file).value.history)
    ensures GoalFile(file) == base + Settle(h, i).log
    ensures Goal(file).history == Settle(h, i).history && Goal(file).complete == Settle(h, i).complete
  {
    hide Replay, EncodeRecord, Apply, HistoryOk, Lost;
    var record := LossRecord(h, i);
    SettleSkips(h, i, 0);
    LossRecordApplies(h, i);
    if file == base {
      assert ValidPart(file) == base;
    } else {
      var k: nat :| Extends(base, h, record, k, file);
      var wire := EncodeRecord(record).value;
      ReplayInFlight(base, h, record, k, file);
      if k < |wire| {
        assert ValidPart(file) == base;
      } else {
        var next := AfterLoss(h, i);
        assert wire[..k] == wire;
        assert ValidPart(file) == base + wire;
        SettleSkips(next, i + 1, 0);
      }
    }
  }

  // ---------- reconciliation is settlement ----------

  /** A store during startup: no time has passed on the logical clock. */
  predicate AtStartup(store: Store, h: History, now: i64) {
    && Mirrors(store, h)
    && 0 <= now && store.sessionStart == now && store.timeBase == h.timeBase
  }

  lemma StartupTime(store: Store, h: History, now: i64)
    requires AtStartup(store, h, now)
    ensures JobTime(store, now) == Some(h.timeBase)
  {}

  /** The transaction that settles job `i` logs exactly its loss record. */
  lemma LossPlan(store: Store, h: History, i: nat, now: i64)
    requires AtStartup(store, h, now) && Unsettled(h, i)
    ensures var plan := PlanLoss(store, store.jobs.jobs[i].workerId, now);
            && plan == Commit(LossRecord(h, i), AfterLoss(h, i).scheduler, store.workers, h.timeBase)
            && Sound(store, h, plan)
  {
    hide HistoryOk, RegistryOk, PlanLoss, LoseWorker, ActiveSlot, Sound, Lost, JobTime, Apply, EncodeRecord,
         ValidPayload, WorkersIssued;
    var worker := store.jobs.jobs[i].workerId;
    LoseWorkerIsLoss(h, i);
    StartupTime(store, h, now);
    LossIsSound(store, h, worker, now);
    LossRecordApplies(h, i);
    SoundTime(store, h, PlanLoss(store, worker, now));
  }

  lemma SoundTime(store: Store, h: History, plan: Plan)
    requires Sound(store, h, plan) && plan.Commit?
    ensures Apply(h, plan.record).Ok? && plan.time == Apply(h, plan.record).value.timeBase
  {}

  /** When the sequence numbers are used up, nothing is written. */
  lemma ExhaustedStops(store: Store, h: History, disk: Disk, i: nat, now: i64)
    requires AtStartup(store, h, now) && h.lastSequence == U64_MAX
    requires i < |store.jobs.jobs| && IsActive(store.jobs.jobs[i])
    ensures var step := Carry(store, disk, PlanLoss(store, store.jobs.jobs[i].workerId, now));
            && step.result == Fatal && step.disk == disk && PublishedBy(step.store) == PublishedBy(store)
            && step.store.fault == WalFault
  {
    hide HistoryOk, RegistryOk, PlanLoss, LoseWorker, ActiveSlot, Append;
    assert SchedulerOk(h.scheduler) by { HistorySchedulerOk(h); }
    var worker := store.jobs.jobs[i].workerId;
    SlotOfLease(h.scheduler.jobs, i);
    LossIsSound(store, h, worker, now);
    var plan := PlanLoss(store, worker, now);
    LatchedWriterIsSilent(store.wal, disk, plan.record);
    ExhaustedAppend(store.wal, disk, plan.record);
  }

  lemma ExhaustedAppend(writer: Writer, disk: Disk, record: Record)
    requires writer.state == WriterReady && writer.nextSequence == 0
    ensures Append(writer, disk, record) == Appended(WriteSequenceExhausted, writer, disk)
  {}

  lemma HistorySchedulerOk(h: History)
    requires HistoryOk(h)
    ensures SchedulerOk(h.scheduler)
  {}

  /** Reconciliation from slot `i`, under any environment, heads for the settlement:
      on success it has reached it, and otherwise the file it leaves has the same goal
      and recovers to what was published last. */
  lemma {:induction false} ReconcileSettles(store: Store, h: History, disk: Disk, i: nat, now: i64)
    requires AtStartup(store, h, now) && Holds(disk.file, h) && SettledBefore(h, i)
    ensures var step := Reconcile(store, disk, i, now);
            var goal := Settle(h, i);
            && Replay(step.disk.file).Ok? && HistoryOk(Replay(step.disk.file).value.history)
            && GoalFile(step.disk.file) == disk.file + goal.log
            && Goal(step.disk.file).history == goal.history && Goal(step.disk.file).complete == goal.complete
            && (step.result == StoreOk ==>
                  && goal.complete && AtStartup(step.store, goal.history, now)
                  && Holds(step.disk.file, goal.history) && step.disk.file == disk.file + goal.log)
            && (step.result != StoreOk ==>
                  && step.result in {Fatal, Killed} && Recovers(step.disk.file, PublishedBy(step.store))
                  && step.store.fault == (if step.result == Fatal then WalFault else NoFault))
    decreases STORE_CAPACITY - i
  {
    hide HistoryOk, Replay, PlanLoss, EncodeRecord, Apply, Carry, Lost, Sound, RegistryOk;
    assert |h.scheduler.jobs| <= STORE_CAPACITY by { HistorySchedulerOk(h); }
    if i >= |store.jobs.jobs| {
      SettleSkips(h, i, 0);
      assert ValidPart(disk.file) == disk.file;
    } else if !IsActive(store.jobs.jobs[i]) {
      ReconcileSettles(store, h, disk, i + 1, now);
    } else if h.lastSequence == U64_MAX {
      ExhaustedStops(store, h, disk, i, now);
      SettleSkips(h, i, 0);
      HeldRecovers(disk.file, h);
      assert ValidPart(disk.file) == disk.file;
    } else {
      LossPlan(store, h, i, now);
      var plan := PlanLoss(store, store.jobs.jobs[i].workerId, now);
      CarryCommits(store, h, disk, plan);
      LossRecordApplies(h, i);
      var step := Carry(store, disk, plan);
      if step.result == StoreOk {
        var next := AfterLoss(h, i);
        var settled := step.store.(interrupted := step.store.interrupted + 1);
        assert Mirrors(step.store, next) by { SoundMirrors(store, h, plan); }
        ReconcileSettles(settled, next, step.disk, i + 1, now);
      } else {
        GoalUnmoved(disk.file, h, i, step.disk.file);
        assert InFlight(disk.file, h, step.disk.file);
      }
    }
  }

  lemma SoundMirrors(store: Store, h: History, plan: Plan)
    requires Sound(store, h, plan) && plan.Commit?
    ensures Apply(h, plan.record).Ok? && Mirrors(Publish(store, plan), Apply(h, plan.record).value)
  {}
}
