/** What can happen to one job over its whole life, restarts included. */
module Lifetime {
  import opened Base
  import opened JobModel
  import opened Messages
  import opened SchedulerModel
  import opened WalFormat
  import opened HistoryModel
  import opened ReplayModel

  /** Attempt `k` of this job is over. */
  predicate Ended(job: Job, k: u64) {
    k < job.attempt || (k == job.attempt && !IsActive(job))
  }

  /** `later` is the same job at the same or a later moment of its life. */
  predicate Progresses(job: Job, later: Job) {
    && later.id == job.id && later.taskType == job.taskType && later.arguments == job.arguments
    && later.maxRetries == job.maxRetries && later.createdAt == job.createdAt
    && job.attempt <= later.attempt
    && (!IsActive(job) ==> later == job || job.attempt < later.attempt)
    && (later == job || (!IsTerminal(job) && Rank(later) < Rank(job) && job.updatedAt <= later.updatedAt))
  }

  /** Jobs are never lost or reordered, and each one only progresses. */
  predicate StoreProgresses(jobs: seq<Job>, later: seq<Job>) {
    && |jobs| <= |later|
    && forall i :: 0 <= i < |jobs| ==> Progresses(jobs[i], later[i])
  }

  lemma ProgressIsTransitive(a: seq<Job>, b: seq<Job>, c: seq<Job>)
    requires StoreProgresses(a, b) && StoreProgresses(b, c)
    ensures StoreProgresses(a, c)
  {
    forall i | 0 <= i < |a| ensures Progresses(a[i], c[i]) {
      assert Progresses(a[i], b[i]) && Progresses(b[i], c[i]);
    }
  }

  lemma AdvanceIsProgress(job: Job, later: Job, now: i64)
    requires JobOk(job) && Advances(job, later, now) && job.updatedAt <= now
    ensures Progresses(job, later)
  {}

  /** Terminal records never change, and an attempt that has ended stays ended. */
  lemma ProgressKeeps(job: Job, later: Job)
    requires Progresses(job, later)
    ensures IsTerminal(job) ==> later == job
    ensures forall k :: Ended(job, k) ==> Ended(later, k)
  {}

  lemma ApplyProgresses(h: History, record: Record)
    requires HistoryOk(h) && ValidPayload(record) && Apply(h, record).Ok?
    ensures StoreProgresses(h.scheduler.jobs, Apply(h, record).value.scheduler.jobs)
  {
    hide ValidSnapshot, SchedulerOk, FindSlot, Advances, Progresses;
    match record
    case WorkerAllocated(_, _) =>
      forall i | 0 <= i < |h.scheduler.jobs| ensures Progresses(h.scheduler.jobs[i], h.scheduler.jobs[i]) {
        SelfProgress(h.scheduler.jobs[i]);
      }
    case JobSnapshot(kind, _, saved) =>
      AcceptedSnapshot(h, kind, saved);
      var jobs := h.scheduler.jobs;
      var next := Apply(h, record).value.scheduler.jobs;
      forall i | 0 <= i < |jobs| ensures Progresses(jobs[i], next[i]) {
        if next[i] == jobs[i] {
          SelfProgress(jobs[i]);
        } else {
          JobsAreOk(h, i);
          AdvanceIsProgress(jobs[i], saved, saved.updatedAt);
        }
      }
  }

  lemma SelfProgress(job: Job)
    ensures Progresses(job, job)
  {}

  lemma JobsAreOk(h: History, i: nat)
    requires HistoryOk(h) && i < |h.scheduler.jobs|
    ensures JobOk(h.scheduler.jobs[i]) && h.scheduler.jobs[i].updatedAt <= h.timeBase
  {}

  // ---------- stale reports ----------

  /** A report that names an attempt which has ended is rejected; nothing changes. */
  lemma StaleReportRejected(s: Scheduler, workerId: u32, report: Message, now: i64)
    requires AllJobsOk(s.jobs) && ReportIdentity(report).Some?
    requires var slot := FindSlot(s.jobs, ReportIdentity(report).value.jobId);
             slot < |s.jobs| && Ended(s.jobs[slot], ReportIdentity(report).value.attempt)
    ensures ApplyReport(s, workerId, report, now).Err?
    ensures ApplyReport(s, workerId, report, now) != Err(SchedulerError.QueueError)
  {
    hide FindSlot, ValidSnapshot;
    var identity := ReportIdentity(report).value;
    var job := s.jobs[FindSlot(s.jobs, identity.jobId)];
    assert JobOk(job);
    StartOk(job, workerId, identity.attempt, now);
    FailOk(job, workerId, identity.attempt, TaskFailure, now);
    if report.CompletedReport? {
      CompleteOk(job, workerId, identity.attempt, report.result, now);
    }
  }

  // ---------- bounded lives ----------

  /** How many of these records are about job `id`. */
  function RecordsAbout(records: seq<Record>, id: u64): nat {
    if records == [] then 0 else (if About(records[0], id) then 1 else 0) + RecordsAbout(records[1..], id)
  }

  predicate About(record: Record, id: u64) {
    record.JobSnapshot? && record.job.id == id
  }

  predicate AllValid(records: seq<Record>) {
    forall i :: 0 <= i < |records| ==> ValidPayload(records[i])
  }

  /** Where the job a record is about sits after the record is applied. */
  lemma ApplyTouches(h: History, record: Record, id: u64)
    requires HistoryOk(h) && ValidPayload(record) && Apply(h, record).Ok? && About(record, id)
    ensures var next := Apply(h, record).value.scheduler.jobs;
            exists i :: 0 <= i < |next| && next[i].id == id
                        && (if i < |h.scheduler.jobs| then Rank(next[i]) < Rank(h.scheduler.jobs[i])
                            else Rank(next[i]) == 3 * next[i].maxRetries + 3)
  {
    hide ValidSnapshot, SchedulerOk, FindSlot;
    AcceptedSnapshot(h, record.kind, record.job);
    ValidKindIsUnique(record.kind, record.job);
    var jobs := h.scheduler.jobs;
    var next := Apply(h, record).value.scheduler.jobs;
    var i := if record.kind == JobCreated then |jobs| else FindSlot(jobs, id);
    assert next[i] == record.job;
    assert record.kind == JobCreated ==> record.job.retryCount == 0 && record.job.state == Queued;
  }

  /** Every record about a job uses up some of its budget. */
  lemma {:induction false} RecordsUseBudget(h: History, records: seq<Record>, i: nat)
    requires HistoryOk(h) && AllValid(records) && ApplyAll(h, records).Ok?
    requires i < |ApplyAll(h, records).value.scheduler.jobs|
    ensures var job := ApplyAll(h, records).value.scheduler.jobs[i];
            && HistoryOk(ApplyAll(h, records).value)
            && StoreProgresses(h.scheduler.jobs, ApplyAll(h, records).value.scheduler.jobs)
            && RecordsAbout(records, job.id) + Rank(job) <=
                 (if i < |h.scheduler.jobs| then Rank(h.scheduler.jobs[i]) else 3 * job.maxRetries + 4)
    decreases |records|
  {
    hide ValidPayload, HistoryOk, Apply, Rank;
    var jobs := h.scheduler.jobs;
    if records == [] {
      forall k | 0 <= k < |jobs| ensures Progresses(jobs[k], jobs[k]) {
        SelfProgress(jobs[k]);
      }
    } else {
      var record, rest := records[0], records[1..];
      var next := Apply(h, record).value;
      var last := ApplyAll(h, records).value;
      var job := last.scheduler.jobs[i];
      ApplyKeepsOk(h, record);
      ApplyProgresses(h, record);
      RecordsUseBudget(next, rest, i);
      ProgressIsTransitive(jobs, next.scheduler.jobs, last.scheduler.jobs);
      if About(record, job.id) {
        ApplyTouches(h, record, job.id);
        OneJobPerId(next, last, i, job.id);
      } else if i < |jobs| {
        assert Progresses(jobs[i], next.scheduler.jobs[i]);
      } else if i < |next.scheduler.jobs| {
        NewJobIsTouched(h, record, i);
      }
    }
  }

  /** The job found under an ID in a later store sits in the same slot. */
  lemma OneJobPerId(h: History, later: History, i: nat, id: u64)
    requires HistoryOk(later) && StoreProgresses(h.scheduler.jobs, later.scheduler.jobs)
    requires i < |later.scheduler.jobs| && later.scheduler.jobs[i].id == id
    ensures forall k :: 0 <= k < |h.scheduler.jobs| && h.scheduler.jobs[k].id == id ==> k == i
  {
    assert IdsIncrease(later.scheduler.jobs);
    forall k | 0 <= k < |h.scheduler.jobs| && h.scheduler.jobs[k].id == id ensures k == i {
      assert Progresses(h.scheduler.jobs[k], later.scheduler.jobs[k]);
    }
  }

  lemma NewJobIsTouched(h: History, record: Record, i: nat)
    requires Apply(h, record).Ok? && |h.scheduler.jobs| <= i < |Apply(h, record).value.scheduler.jobs|
    ensures About(record, Apply(h, record).value.scheduler.jobs[i].id)
  {}

  /** Bounded lives: in any accepted log, a job has at most `maxRetries + 1` attempts
      and at most `3 * maxRetries + 4` records, however many restarts there were. */
  lemma BoundedLife(file: bytes, i: nat)
    requires Replay(file).Ok? && i < |Replay(file).value.history.scheduler.jobs|
    ensures var job := Replay(file).value.history.scheduler.jobs[i];
            var records := RecordsOf(EmptyHistory(), file[FILE_HEADER_SIZE..]);
            && job.attempt <= job.maxRetries + 1
            && RecordsAbout(records, job.id) <= 3 * job.maxRetries + 4
            && RecordsAbout(records, job.id) + Rank(job) <= 3 * job.maxRetries + 4
  {
    hide DecodeFileHeader, ReplayLog, RecordsOf, ApplyAll, HistoryOk, ValidSnapshot, Encodes, TornTail, FileHeader,
         RecordsAbout, Rank, StoreProgresses, AllValid;
    AcceptedFile(file);
    EmptyHistoryOk();
    var records := RecordsOf(EmptyHistory(), file[FILE_HEADER_SIZE..]);
    var log := file[FILE_HEADER_SIZE..];
    EncodedRecordsValid(records, log[..|log| - Replay(file).value.tail]);
    RecordsUseBudget(EmptyHistory(), records, i);
    var job := Replay(file).value.history.scheduler.jobs[i];
    JobsAreOk(Replay(file).value.history, i);
    AttemptCountsRetries(job);
    RetriesBounded(job);
  }

  lemma RetriesBounded(job: Job)
    requires JobOk(job)
    ensures job.retryCount <= job.maxRetries && Rank(job) >= 0
  {}

  lemma {:induction false} EncodedRecordsValid(records: seq<Record>, log: bytes)
    requires Encodes(records, log)
    ensures AllValid(records)
    decreases |records|
  {
    hide EncodeRecord, ValidPayload;
    if records != [] {
      EncodedIsValid(records[0]);
      var wire := EncodeRecord(records[0]).value;
      EncodedRecordsValid(records[1..], log[|wire|..]);
      forall i | 0 <= i < |records| ensures ValidPayload(records[i]) {
        if i > 0 {
          assert records[i] == records[1..][i - 1];
        }
      }
    }
  }
}
