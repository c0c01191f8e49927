/** Replaying logged records (src/coordinator/wal_replay.c, `apply_record`).

    A history is everything replay knows after a prefix of the log.  Each record is
    re-derived through the job model and must agree with the logged snapshot. */
module HistoryModel {
  import opened Base
  import opened JobModel
  import opened SchedulerModel
  import opened WalFormat

  datatype History = History(
    scheduler: Scheduler, nextWorkerId: u32, lastSequence: u64,
    highestJobId: u64, highestWorkerId: u32, timeBase: i64, issued: set<u32>)

  datatype HistoryError =
    | BadAllocation | UnknownJob | UnknownWorker | BusyWorker | BadFifo | BadTime | BadTransition | BadSnapshot

  datatype ReplayError = BadFormat(format: WalError) | BadHistory(history: HistoryError) | Capacity

  function EmptyHistory(): History {
    History(Initial(), 1, 0, 0, 0, 0, {})
  }

  function Rederived(result: JobResult): Result<Job, ReplayError> {
    if result.Ok? then Ok(result.value) else Err(BadHistory(BadTransition))
  }

  /** The record the job model derives for a logged snapshot. */
  function Candidate(h: History, kind: Kind, saved: Job): Result<Job, ReplayError> {
    var s := h.scheduler;
    var slot := FindSlot(s.jobs, saved.id);
    if saved.updatedAt < h.timeBase then Err(BadHistory(BadTime))
    else if kind == JobCreated then
      if saved.id <= h.highestJobId then Err(BadHistory(BadAllocation))
      else if |s.jobs| >= STORE_CAPACITY then Err(Capacity)
      else Rederived(Init(saved.id, saved.taskType, saved.arguments, saved.maxRetries, saved.createdAt))
    else if slot == |s.jobs| then Err(BadHistory(UnknownJob))
    else
      var job := s.jobs[slot];
      match kind
      case JobAssigned =>
        if saved.workerId !in h.issued then Err(BadHistory(UnknownWorker))
        else if ActiveSlot(s.jobs, saved.workerId) < |s.jobs| then Err(BadHistory(BusyWorker))
        else if s.pending == [] || s.pending[0] != saved.id then Err(BadHistory(BadFifo))
        else Rederived(Assign(job, saved.workerId, saved.updatedAt))
      case JobStarted => Rederived(Start(job, saved.workerId, saved.attempt, saved.updatedAt))
      case JobCompleted => Rederived(Complete(job, saved.workerId, saved.attempt, saved.result, saved.updatedAt))
      case _ => Rederived(Fail(job, job.workerId, saved.attempt, saved.failure, saved.updatedAt))
  }

  function ApplySnapshot(h: History, kind: Kind, sequence: u64, saved: Job): Result<History, ReplayError> {
    var candidate := Candidate(h, kind, saved);
    if candidate.Err? then Err(candidate.error)
    else if candidate.value != saved then Err(BadHistory(BadSnapshot))
    else
      var s := h.scheduler;
      var pending :=
        if kind == JobAssigned then (if s.pending == [] then Err(QueueEmpty) else Ok(s.pending[1..]))
        else if saved.state == Queued then Push(s.pending, saved)
        else Ok(s.pending);
      if pending.Err? then Err(BadHistory(BadFifo))
      else if kind == JobCreated then
        Ok(h.(scheduler := Scheduler(s.jobs + [saved], Succ64(saved.id), pending.value),
              highestJobId := saved.id, timeBase := saved.updatedAt, lastSequence := sequence))
      else
        var slot := FindSlot(s.jobs, saved.id);
        Ok(h.(scheduler := s.(jobs := s.jobs[slot := saved], pending := pending.value),
              timeBase := saved.updatedAt, lastSequence := sequence))
  }

  /** `apply_record` and the advance of the sequence number after it. */
  function Apply(h: History, record: Record): Result<History, ReplayError> {
    match record
    case WorkerAllocated(sequence, id) =>
      if id <= h.highestWorkerId then Err(BadHistory(BadAllocation))
      else Ok(h.(nextWorkerId := Succ32(id), highestWorkerId := id,
                 issued := h.issued + {id}, lastSequence := sequence))
    case JobSnapshot(kind, sequence, saved) => ApplySnapshot(h, kind, sequence, saved)
  }

  // ---------- the invariant of replay ----------

  predicate HistoryOk(h: History) {
    && SchedulerOk(h.scheduler)
    && 0 <= h.timeBase
    && (forall i :: 0 <= i < |h.scheduler.jobs| ==> h.scheduler.jobs[i].updatedAt <= h.timeBase)
    && h.highestJobId == (if h.scheduler.jobs == [] then 0 else h.scheduler.jobs[|h.scheduler.jobs| - 1].id)
    && h.nextWorkerId == Succ32(h.highestWorkerId)
    && (forall id :: id in h.issued ==> 0 < id <= h.highestWorkerId)
    && (h.highestWorkerId != 0 ==> h.highestWorkerId in h.issued)
    && (forall i :: 0 <= i < |h.scheduler.jobs| && h.scheduler.jobs[i].state != Queued
          ==> h.scheduler.jobs[i].workerId in h.issued)
  }

  lemma EmptyHistoryOk()
    ensures HistoryOk(EmptyHistory())
  {}

  /** What an accepted snapshot says: the job is new, or its logged state follows the
      state held so far by one legal transition. */
  lemma AcceptedSnapshot(h: History, kind: Kind, saved: Job)
    requires HistoryOk(h) && Candidate(h, kind, saved) == Ok(saved) && ValidSnapshot(kind, saved)
    ensures JobOk(saved) && h.timeBase <= saved.updatedAt
    ensures kind == JobCreated ==> saved.state == Queued && h.highestJobId < saved.id
    ensures kind != JobCreated ==>
              var slot := FindSlot(h.scheduler.jobs, saved.id);
              && slot < |h.scheduler.jobs|
              && Advances(h.scheduler.jobs[slot], saved, saved.updatedAt)
              && (kind == JobAssigned <==> h.scheduler.jobs[slot].state == Queued)
  {
    hide ValidSnapshot, FindSlot, ActiveSlot, Advances;
    ValidKindIsUnique(kind, saved);
    var jobs := h.scheduler.jobs;
    if kind != JobCreated {
      var job := jobs[FindSlot(jobs, saved.id)];
      assert JobOk(job);
      match kind {
        case JobAssigned => AssignOk(job, saved.workerId, saved.updatedAt);
        case JobStarted => StartOk(job, saved.workerId, saved.attempt, saved.updatedAt);
        case JobCompleted => CompleteOk(job, saved.workerId, saved.attempt, saved.result, saved.updatedAt);
        case _ => FailOk(job, job.workerId, saved.attempt, saved.failure, saved.updatedAt);
      }
    }
  }

  /** The queue after an accepted snapshot of a job that exists. */
  function NextQueue(pending: seq<u64>, kind: Kind, saved: Job): seq<u64> {
    if kind == JobAssigned then (if pending == [] then [] else pending[1..])
    else if saved.state == Queued then pending + [saved.id]
    else pending
  }

  lemma QueueAfter(s: Scheduler, kind: Kind, saved: Job)
    requires SchedulerOk(s) && JobOk(saved) && kind == KindOf(saved) && kind != JobCreated
    requires FindSlot(s.jobs, saved.id) < |s.jobs|
    requires kind == JobAssigned <==> s.jobs[FindSlot(s.jobs, saved.id)].state == Queued
    requires kind == JobAssigned ==> s.pending != [] && s.pending[0] == saved.id
    ensures saved.state == Queued ==> saved.id !in s.pending && Push(s.pending, saved) == Ok(s.pending + [saved.id])
    ensures var pending := NextQueue(s.pending, kind, saved);
            && NoDuplicates(pending)
            && forall id :: id in pending <==> if id == saved.id then saved.state == Queued else id in s.pending
  {
    hide FindSlot;
    var slot := FindSlot(s.jobs, saved.id);
    assert s.jobs[slot].id == saved.id;
    if kind == JobAssigned {
      assert s.pending == [saved.id] + s.pending[1..];
    } else {
      assert saved.id !in s.pending;
      RoomToRequeue(s, slot);
    }
  }

  /** Every accepted record keeps the whole invariant. */
  lemma SnapshotKeepsOk(h: History, kind: Kind, sequence: u64, saved: Job)
    requires HistoryOk(h) && ValidSnapshot(kind, saved)
    requires ApplySnapshot(h, kind, sequence, saved).Ok?
    ensures HistoryOk(ApplySnapshot(h, kind, sequence, saved).value)
  {
    hide ValidSnapshot, FindSlot, ActiveSlot, SchedulerOk, Advances;
    AcceptedSnapshot(h, kind, saved);
    ValidKindIsUnique(kind, saved);
    var s := h.scheduler;
    if kind == JobCreated {
      IdsBelow(h);
      EnlistOk(s, saved);
    } else {
      var slot := FindSlot(s.jobs, saved.id);
      QueueAfter(s, kind, saved);
      LeaseStaysExclusive(h, kind, saved);
      var next := ApplySnapshot(h, kind, sequence, saved).value;
      assert next.scheduler.pending == NextQueue(s.pending, kind, saved);
      ReplaceOk(s, slot, saved, NextQueue(s.pending, kind, saved));
      OwnerIssued(h, kind, saved);
    }
  }

  lemma IdsBelow(h: History)
    requires HistoryOk(h)
    ensures forall i :: 0 <= i < |h.scheduler.jobs| ==> h.scheduler.jobs[i].id <= h.highestJobId
  {}

  lemma LeaseStaysExclusive(h: History, kind: Kind, saved: Job)
    requires HistoryOk(h) && Candidate(h, kind, saved) == Ok(saved) && ValidSnapshot(kind, saved) && kind != JobCreated
    ensures FindSlot(h.scheduler.jobs, saved.id) < |h.scheduler.jobs|
    ensures IsActive(saved) ==>
              forall k :: 0 <= k < |h.scheduler.jobs| && k != FindSlot(h.scheduler.jobs, saved.id)
                ==> !Leased(h.scheduler.jobs[k], saved.workerId)
  {
    hide ValidSnapshot, FindSlot;
    AcceptedSnapshot(h, kind, saved);
    ValidKindIsUnique(kind, saved);
  }

  lemma OwnerIssued(h: History, kind: Kind, saved: Job)
    requires HistoryOk(h) && Candidate(h, kind, saved) == Ok(saved) && ValidSnapshot(kind, saved) && kind != JobCreated
    ensures saved.state != Queued ==> saved.workerId in h.issued
  {
    hide ValidSnapshot, FindSlot;
    AcceptedSnapshot(h, kind, saved);
    ValidKindIsUnique(kind, saved);
  }

  /** Replay soundness, one record at a time. */
  lemma ApplyKeepsOk(h: History, record: Record)
    requires HistoryOk(h) && ValidPayload(record) && Apply(h, record).Ok?
    ensures HistoryOk(Apply(h, record).value)
    ensures Apply(h, record).value.lastSequence == record.sequence
    ensures h.timeBase <= Apply(h, record).value.timeBase
  {
    hide SchedulerOk, ValidSnapshot;
    if record.JobSnapshot? {
      SnapshotKeepsOk(h, record.kind, record.sequence, record.job);
    }
  }
}
