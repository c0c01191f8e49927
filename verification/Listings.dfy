/** The replies built from a published store (src/coordinator/main.c): one job's
    status, the job listing and the worker listing. */
module Listings {
  import opened Base
  import opened JobModel
  import opened Messages
  import opened SchedulerModel
  import opened RegistryModel
  import opened WalFormat
  import opened Protocol

  function StatusOf(job: Job): JobStatus {
    JobStatus(job.id, StateCode(job.state), job.workerId, job.attempt, job.retryCount, job.maxRetries,
              FailureCode(job.failure), job.result)
  }

  function SummaryOf(job: Job): JobSummary {
    JobSummary(job.id, job.taskType, StateCode(job.state), job.workerId, job.attempt, job.retryCount,
               job.maxRetries, FailureCode(job.failure), |job.result| % 0x1_0000_0000)
  }

  lemma StatusIsValid(job: Job)
    requires JobOk(job)
    ensures ValidateStatus(StatusOf(job), |job.result|) == None
  {}

  /** Every job status a healthy store can give is encodable. */
  lemma StatusReplyIsValid(job: Job)
    requires JobOk(job)
    ensures Validate(JobStatusResponse(StatusOf(job)), |job.result|) == None
  {
    hide ValidateStatus;
    StatusIsValid(job);
  }

  // ---------- sorting by ID ----------

  /** `qsort` with a comparison of keys. */
  function SortBy<T>(key: T -> nat, list: seq<T>): seq<T> {
    if list == [] then [] else Insert(key, list[0], SortBy(key, list[1..]))
  }

  function Insert<T>(key: T -> nat, x: T, list: seq<T>): seq<T> {
    if list == [] || key(x) <= key(list[0]) then [x] + list else [list[0]] + Insert(key, x, list[1..])
  }

  predicate Increasing<T>(key: T -> nat, list: seq<T>) {
    forall i, j :: 0 <= i < j < |list| ==> key(list[i]) < key(list[j])
  }

  predicate DistinctKeys<T>(key: T -> nat, list: seq<T>) {
    forall i, j :: 0 <= i < j < |list| ==> key(list[i]) != key(list[j])
  }

  /** Sorting permutes the list. */
  lemma {:induction false} SortPermutes<T>(key: T -> nat, list: seq<T>)
    ensures multiset(SortBy(key, list)) == multiset(list)
  {
    if list != [] {
      SortPermutes(key, list[1..]);
      InsertPermutes(key, list[0], SortBy(key, list[1..]));
      assert list == [list[0]] + list[1..];
    }
  }

  lemma {:induction false} InsertPermutes<T>(key: T -> nat, x: T, list: seq<T>)
    ensures multiset(Insert(key, x, list)) == multiset{x} + multiset(list)
  {
    if list != [] && key(x) > key(list[0]) {
      InsertPermutes(key, x, list[1..]);
      assert list == [list[0]] + list[1..];
    }
  }

  lemma SortKeeps<T>(key: T -> nat, list: seq<T>)
    ensures |SortBy(key, list)| == |list|
    ensures forall i :: 0 <= i < |list| ==> SortBy(key, list)[i] in list
  {
    var sorted := SortBy(key, list);
    SortPermutes(key, list);
    assert |multiset(sorted)| == |multiset(list)|;
    forall i | 0 <= i < |list| ensures sorted[i] in list {
      assert sorted[i] in multiset(sorted);
    }
  }

  /** With distinct keys the result is strictly increasing. */
  lemma {:induction false} SortIncreases<T>(key: T -> nat, list: seq<T>)
    requires DistinctKeys(key, list)
    ensures Increasing(key, SortBy(key, list))
  {
    if list != [] {
      var rest := SortBy(key, list[1..]);
      SortIncreases(key, list[1..]);
      SortKeeps(key, list[1..]);
      forall i | 0 <= i < |rest| ensures key(rest[i]) != key(list[0]) {
        assert rest[i] in list[1..];
      }
      InsertIncreases(key, list[0], rest);
    }
  }

  lemma {:induction false} InsertIncreases<T>(key: T -> nat, x: T, list: seq<T>)
    requires Increasing(key, list)
    requires forall i :: 0 <= i < |list| ==> key(list[i]) != key(x)
    ensures Increasing(key, Insert(key, x, list))
  {
    if list != [] && key(x) > key(list[0]) {
      var rest := Insert(key, x, list[1..]);
      InsertIncreases(key, x, list[1..]);
      InsertPermutes(key, x, list[1..]);
      forall i | 0 <= i < |rest| ensures key(list[0]) < key(rest[i]) {
        assert rest[i] in multiset(rest);
        assert rest[i] == x || rest[i] in list[1..];
      }
    }
  }

  /** A list that is already increasing is left as it is. */
  lemma {:induction false} SortOfIncreasing<T>(key: T -> nat, list: seq<T>)
    requires Increasing(key, list)
    ensures SortBy(key, list) == list
  {
    if list != [] {
      SortOfIncreasing(key, list[1..]);
    }
  }

  // ---------- the job listing ----------

  function Summaries(jobs: seq<Job>): (list: seq<JobSummary>)
    ensures |list| == |jobs| && forall i :: 0 <= i < |jobs| ==> list[i] == SummaryOf(jobs[i])
  {
    seq(|jobs|, i requires 0 <= i < |jobs| => SummaryOf(jobs[i]))
  }

  function JobListing(jobs: seq<Job>): seq<JobSummary> {
    SortBy((e: JobSummary) => e.jobId, Summaries(jobs))
  }

  lemma {:induction false} JobEntriesValid(list: seq<JobSummary>, i: nat)
    requires i <= |list|
    requires forall k :: 0 <= k < |list| ==> ValidateJobEntry(list, k).None?
    ensures ValidateJobsFrom(list, i) == None
    decreases |list| - i
  {
    hide ValidateJobEntry;
    if i < |list| {
      JobEntriesValid(list, i + 1);
    }
  }

  lemma SummaryIsValid(job: Job)
    requires JobOk(job)
    ensures var e := SummaryOf(job);
            ValidateStatus(StatusOfSummary(e), e.resultSize).None? && ValidTask(e.taskType)
                && e.resultSize <= MAX_DATA_SIZE
  {}

  /** The job listing of a healthy store is in ID order already and passes the
      validator. */
  lemma JobListingIsValid(s: Scheduler)
    requires SchedulerOk(s)
    ensures JobListing(s.jobs) == Summaries(s.jobs)
    ensures ValidateJobs(JobListing(s.jobs)) == None
  {
    hide ValidateStatus, ValidSnapshot, SummaryOf;
    var list := Summaries(s.jobs);
    var key := (e: JobSummary) => e.jobId;
    forall i | 0 <= i < |list| ensures list[i].jobId == s.jobs[i].id { SummaryId(s.jobs[i]); }
    SortOfIncreasing(key, list);
    forall k | 0 <= k < |list| ensures ValidateJobEntry(list, k).None? {
      SummaryIsValid(s.jobs[k]);
    }
    JobEntriesValid(list, 0);
  }

  lemma SummaryId(job: Job)
    requires JobOk(job)
    ensures SummaryOf(job).jobId == job.id
  {}

  // ---------- the worker listing ----------

  function WorkerView(jobs: seq<Job>, w: Worker, now: i64): WorkerSummary
    requires 0 <= w.lastHeartbeat <= now
  {
    var slot := if w.state == Alive then ActiveSlot(jobs, w.id) else |jobs|;
    if slot == |jobs| then WorkerSummary(w.id, if w.state == Alive then 1 else 2, now - w.lastHeartbeat, 0, 0)
    else WorkerSummary(w.id, 1, now - w.lastHeartbeat, jobs[slot].id, jobs[slot].attempt)
  }

  predicate Viewable(workers: seq<Worker>, now: i64) {
    forall i :: 0 <= i < |workers| && Used(workers[i]) ==> 0 <= workers[i].lastHeartbeat <= now
  }

  /** One entry per alive or retained dead worker, in slot order. */
  function Views(jobs: seq<Job>, workers: seq<Worker>, now: i64): (list: seq<WorkerSummary>)
    requires Viewable(workers, now)
    ensures |list| <= |workers|
    ensures forall k :: 0 <= k < |list| ==> exists i :: 0 <= i < |workers| && ViewsAs(jobs, workers[i], now, list[k])
  {
    if workers == [] then []
    else
      var n := |workers| - 1;
      var list := Views(jobs, workers[..n], now);
      assert forall i :: 0 <= i < n ==> workers[..n][i] == workers[i];
      if !Used(workers[n]) then list
      else
        assert ViewsAs(jobs, workers[n], now, WorkerView(jobs, workers[n], now));
        list + [WorkerView(jobs, workers[n], now)]
  }

  predicate ViewsAs(jobs: seq<Job>, w: Worker, now: i64, e: WorkerSummary) {
    Used(w) && 0 <= w.lastHeartbeat <= now && e == WorkerView(jobs, w, now)
  }

  /** The entries, sorted by ID; none if a clock reading is impossible. */
  function WorkerListing(jobs: seq<Job>, registry: Registry, now: i64): Option<seq<WorkerSummary>> {
    if !Viewable(registry.workers, now) then None
    else Some(SortBy((e: WorkerSummary) => e.workerId, Views(jobs, registry.workers, now)))
  }

  lemma {:induction false} WorkerEntriesValid(list: seq<WorkerSummary>, i: nat)
    requires i <= |list|
    requires forall k :: 0 <= k < |list| ==> ValidateWorkerEntry(list, k).None?
    ensures ValidateWorkersFrom(list, i) == None
    decreases |list| - i
  {
    hide ValidateWorkerEntry;
    if i < |list| {
      WorkerEntriesValid(list, i + 1);
    }
  }

  lemma {:induction false} ViewsHaveDistinctIds(jobs: seq<Job>, workers: seq<Worker>, now: i64)
    requires Viewable(workers, now)
    requires forall i, j :: 0 <= i < j < |workers| && Used(workers[i]) && Used(workers[j]) ==>
      workers[i].id != workers[j].id
    ensures DistinctKeys((e: WorkerSummary) => e.workerId, Views(jobs, workers, now))
  {
    hide ActiveSlot, WorkerView;
    if workers != [] {
      var n := |workers| - 1;
      ViewsHaveDistinctIds(jobs, workers[..n], now);
      var list := Views(jobs, workers[..n], now);
      if Used(workers[n]) {
        forall k | 0 <= k < |list| ensures list[k].workerId != workers[n].id {
          var i :| 0 <= i < n && ViewsAs(jobs, workers[..n][i], now, list[k]);
          assert workers[i] == workers[..n][i];
          ViewId(jobs, workers[i], now);
        }
        ViewId(jobs, workers[n], now);
      }
    }
  }

  lemma ViewId(jobs: seq<Job>, w: Worker, now: i64)
    requires 0 <= w.lastHeartbeat <= now
    ensures WorkerView(jobs, w, now).workerId == w.id
  {}

  lemma ViewIsValid(s: Scheduler, w: Worker, now: i64, e: WorkerSummary)
    requires SchedulerOk(s) && w.id != 0 && ViewsAs(s.jobs, w, now, e)
    ensures e.workerId != 0 && (e.state == 1 || e.state == 2) && ((e.jobId == 0) == (e.attempt == 0))
    ensures e.state == 2 ==> e.jobId == 0
  {
    hide ActiveSlot;
    var slot := ActiveSlot(s.jobs, w.id);
    assert slot < |s.jobs| ==> JobOk(s.jobs[slot]);
  }

  /** Every worker listing of a healthy store passes the validator. */
  lemma WorkerListingIsValid(s: Scheduler, registry: Registry, now: i64, timeout: u32)
    requires SchedulerOk(s) && RegistryOk(registry) && timeout != 0
    requires WorkerListing(s.jobs, registry, now).Some?
    ensures ValidateWorkers(timeout, WorkerListing(s.jobs, registry, now).value) == None
  {
    hide SchedulerOk, ViewsAs, SortBy, WorkerView, Viewable;
    var key := (e: WorkerSummary) => e.workerId;
    var views := Views(s.jobs, registry.workers, now);
    var list := SortBy(key, views);
    ViewsHaveDistinctIds(s.jobs, registry.workers, now);
    SortIncreases(key, views);
    SortKeeps(key, views);
    forall k | 0 <= k < |list| ensures ValidateWorkerEntry(list, k).None? {
      assert list[k] in views;
      var j :| 0 <= j < |views| && views[j] == list[k];
      var i :| 0 <= i < |registry.workers| && ViewsAs(s.jobs, registry.workers[i], now, views[j]);
      assert Used(registry.workers[i]) by { ViewsUsed(s.jobs, registry.workers[i], now, views[j]); }
      ViewIsValid(s, registry.workers[i], now, list[k]);
      assert k > 0 ==> key(list[k - 1]) < key(list[k]);
    }
    WorkerEntriesValid(list, 0);
  }

  lemma ViewsUsed(jobs: seq<Job>, w: Worker, now: i64, e: WorkerSummary)
    requires ViewsAs(jobs, w, now, e)
    ensures Used(w)
  {}
}
