/** Every transaction the store prepares is a record that replay accepts, with the
    prepared store as the result.  Internal failures are therefore unreachable. */
module Logging {
  import opened Base
  import opened JobModel
  import opened Messages
  import opened SchedulerModel
  import opened HistoryModel
  import opened WalFormat

  /** The history after a scheduler change is logged at time `change.job.updatedAt`. */
  function Logged(h: History, sequence: u64, change: Change): History {
    h.(scheduler := change.next,
       highestJobId := if KindOf(change.job) == JobCreated then change.job.id else h.highestJobId,
       timeBase := change.job.updatedAt, lastSequence := sequence)
  }

  /** The change is a valid snapshot, found under its ID in the new store, and
      replaying it gives the new store. */
  predicate Replayable(h: History, sequence: u64, change: Change) {
    && JobOk(change.job)
    && ApplySnapshot(h, KindOf(change.job), sequence, change.job) == Ok(Logged(h, sequence, change))
    && FindSlot(change.next.jobs, change.job.id) < |change.next.jobs|
    && change.next.jobs[FindSlot(change.next.jobs, change.job.id)] == change.job
  }

  lemma SubmitIsReplayable(h: History, submission: Submission, now: i64, sequence: u64)
    requires HistoryOk(h) && h.timeBase <= now
    ensures var out := Submit(h.scheduler, submission, now);
            && out != Err(SchedulerError.QueueError)
            && (out.Ok? ==> Replayable(h, sequence, out.value) && KindOf(out.value.job) == JobCreated
                            && out.value.job.updatedAt == now)
  {
    hide ValidSnapshot, FindSlot;
    var s := h.scheduler;
    var out := Submit(s, submission, now);
    var job := Init(s.nextJobId, submission.taskType, submission.arguments, submission.maxRetries, now);
    if |s.jobs| < STORE_CAPACITY && s.nextJobId != 0 && job.Ok? {
      InitOk(s.nextJobId, submission.taskType, submission.arguments, submission.maxRetries, now);
      IdsBelow(h);
      RoomToSubmit(s);
      assert job.value.id !in s.pending by {
        forall id | id in s.pending ensures id <= h.highestJobId {
          assert s.jobs[FindSlot(s.jobs, id)].id == id;
        }
      }
      EnlistOk(s, job.value);
      var next := out.value.next;
      SlotOfId(next.jobs, |s.jobs|);
    }
  }

  lemma DispatchIsReplayable(h: History, workerId: u32, now: i64, sequence: u64)
    requires HistoryOk(h) && h.timeBase <= now && workerId in h.issued
    ensures var out := Dispatch(h.scheduler, workerId, now);
            && (out.Err? ==> out.error == WorkerBusy || out.error == Empty)
            && (out.Err? && out.error == WorkerBusy <==> ActiveSlot(h.scheduler.jobs, workerId) < |h.scheduler.jobs|)
            && (out.Ok? ==> Replayable(h, sequence, out.value) && KindOf(out.value.job) == JobAssigned
                            && out.value.job.updatedAt == now)
  {
    hide ValidSnapshot, FindSlot, ActiveSlot;
    var s := h.scheduler;
    if ActiveSlot(s.jobs, workerId) == |s.jobs| && s.pending != [] {
      var slot := FindSlot(s.jobs, s.pending[0]);
      assert s.pending[0] in s.pending;
      AssignOk(s.jobs[slot], workerId, now);
      var job := Assign(s.jobs[slot], workerId, now).value;
      SameSlot(s.jobs, slot, job);
    }
  }

  /** Replacing a record by one with the same ID leaves it where it was. */
  lemma SameSlot(jobs: seq<Job>, slot: nat, job: Job)
    requires IdsIncrease(jobs) && slot < |jobs| && job.id == jobs[slot].id
    ensures FindSlot(jobs, job.id) == slot == FindSlot(jobs[slot := job], job.id)
  {
    SlotOfId(jobs, slot);
    SlotAfterReplace(jobs, slot, job);
  }

  /** Publishing the outcome of an attempt. */
  lemma OutcomeIsReplayable(h: History, slot: nat, job: Job, sequence: u64)
    requires HistoryOk(h) && slot < |h.scheduler.jobs| && h.timeBase <= job.updatedAt
    requires JobOk(job) && IsActive(h.scheduler.jobs[slot]) && job.id == h.scheduler.jobs[slot].id
    requires KindOf(job) != JobCreated && KindOf(job) != JobAssigned
    requires Candidate(h, KindOf(job), job) == Ok(job)
    ensures var out := PublishOutcome(h.scheduler, slot, job);
            out.Ok? && Replayable(h, sequence, out.value) && out.value.job == job
  {
    hide FindSlot, Candidate;
    var s := h.scheduler;
    SameSlot(s.jobs, slot, job);
    if job.state == Queued {
      RoomToRequeue(s, slot);
      assert job.id !in s.pending;
    }
  }

  lemma ReportedJobOk(job: Job, workerId: u32, report: Message, now: i64)
    requires JobOk(job) && ReportedJob(job, workerId, report, now).Some?
    ensures var next := ReportedJob(job, workerId, report, now).value;
            && JobOk(next) && Advances(job, next, now) && Leased(job, workerId)
            && KindOf(next) != JobCreated && KindOf(next) != JobAssigned
            && (next.state == Running || next.state == Done ==>
              next.workerId == workerId && next.attempt == job.attempt)
  {
    hide ValidSnapshot;
    match report {
      case StartedReport(identity) => StartOk(job, workerId, identity.attempt, now);
      case CompletedReport(identity, result) => CompleteOk(job, workerId, identity.attempt, result, now);
      case FailedReport(identity, failure) => FailOk(job, workerId, identity.attempt, TaskFailure, now);
      case _ =>
    }
  }

  /** The model re-derives a reported snapshot from the logged fields alone. */
  lemma ReportIsRederived(h: History, slot: nat, workerId: u32, report: Message, now: i64)
    requires HistoryOk(h) && slot < |h.scheduler.jobs| && h.timeBase <= now
    requires ReportedJob(h.scheduler.jobs[slot], workerId, report, now).Some?
    ensures var next := ReportedJob(h.scheduler.jobs[slot], workerId, report, now).value;
            Candidate(h, KindOf(next), next) == Ok(next)
  {
    hide ValidSnapshot, FindSlot, ActiveSlot;
    var jobs := h.scheduler.jobs;
    var job := jobs[slot];
    ReportedJobOk(job, workerId, report, now);
    SlotOfId(jobs, slot);
    var next := ReportedJob(job, workerId, report, now).value;
    assert next.id == job.id && next.updatedAt == now;
  }

  lemma ReportIsReplayable(h: History, workerId: u32, report: Message, now: i64, sequence: u64)
    requires HistoryOk(h) && h.timeBase <= now
    ensures var out := ApplyReport(h.scheduler, workerId, report, now);
            && out != Err(SchedulerError.QueueError)
            && (out.Ok? ==>
                  && Replayable(h, sequence, out.value) && out.value.job.updatedAt == now
                  && KindOf(out.value.job) != JobCreated && KindOf(out.value.job) != JobAssigned
                  && ActiveSlot(h.scheduler.jobs, workerId) < |h.scheduler.jobs|
                  && h.scheduler.jobs[ActiveSlot(h.scheduler.jobs, workerId)].id == out.value.job.id)
  {
    hide ValidSnapshot, FindSlot, ActiveSlot, ReportedJob, Candidate, ApplySnapshot, PublishOutcome;
    var jobs := h.scheduler.jobs;
    if workerId != 0 && now >= 0 && ReportIdentity(report).Some? {
      var identity := ReportIdentity(report).value;
      var slot := FindSlot(jobs, identity.jobId);
      if slot < |jobs| && identity.workerId == workerId && ReportedJob(jobs[slot], workerId, report, now).Some? {
        var next := ReportedJob(jobs[slot], workerId, report, now).value;
        ReportedJobOk(jobs[slot], workerId, report, now);
        ReportIsRederived(h, slot, workerId, report, now);
        OutcomeIsReplayable(h, slot, next, sequence);
        SlotOfLease(jobs, slot);
      }
    }
  }

  lemma LossIsReplayable(h: History, workerId: u32, now: i64, sequence: u64)
    requires HistoryOk(h) && h.timeBase <= now
    requires ActiveSlot(h.scheduler.jobs, workerId) < |h.scheduler.jobs|
    ensures var out := LoseWorker(h.scheduler, workerId, now);
            var held := ActiveSlot(h.scheduler.jobs, workerId);
            && out.Ok?
            && Replayable(h, sequence, out.value) && out.value.job.updatedAt == now
            && Advances(h.scheduler.jobs[held], out.value.job, now)
            && (KindOf(out.value.job) == JobRequeued || KindOf(out.value.job) == JobFailed)
  {
    hide ValidSnapshot, FindSlot, ActiveSlot, PublishOutcome, ApplySnapshot;
    var jobs := h.scheduler.jobs;
    var slot := ActiveSlot(jobs, workerId);
    var job := jobs[slot];
    FailOk(job, workerId, job.attempt, WorkerLost, now);
    var next := Fail(job, workerId, job.attempt, WorkerLost, now).value;
    SlotOfId(jobs, slot);
    assert Candidate(h, KindOf(next), next) == Ok(next);
    OutcomeIsReplayable(h, slot, next, sequence);
  }
}
