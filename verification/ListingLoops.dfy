/** The entry loops of `queue_listing` (src/coordinator/main.c). */
module ListingLoops {
  import opened Base
  import opened JobModel
  import opened Messages
  import opened SchedulerModel
  import opened RegistryModel
  import opened WalFormat
  import opened Listings

  /** One entry for each job, then sorted by ID. */
  method ListJobs(jobs: seq<Job>) returns (list: seq<JobSummary>)
    ensures list == JobListing(jobs)
  {
    hide SortBy;
    var entries: seq<JobSummary> := [];
    for i := 0 to |jobs|
      invariant entries == Summaries(jobs[..i])
    {
      var job := jobs[i];
      entries := entries + [JobSummary(job.id, job.taskType, StateCode(job.state), job.workerId, job.attempt,
                                       job.retryCount, job.maxRetries, FailureCode(job.failure),
                                       |job.result| % 0x1_0000_0000)];
      assert jobs[..i + 1] == jobs[..i] + [job];
    }
    assert jobs[..|jobs|] == jobs;
    list := SortBy((e: JobSummary) => e.jobId, entries);
  }

  /** One entry for each alive or retained dead worker, then sorted by ID; nothing if a
      heartbeat lies outside the clock. */
  method ListWorkers(jobs: seq<Job>, registry: Registry, now: i64) returns (list: Option<seq<WorkerSummary>>)
    ensures list == WorkerListing(jobs, registry, now)
  {
    hide SortBy, ActiveSlot;
    var workers := registry.workers;
    var entries: seq<WorkerSummary> := [];
    for i := 0 to |workers|
      invariant Viewable(workers[..i], now) && entries == Views(jobs, workers[..i], now)
    {
      var w := workers[i];
      assert workers[..i + 1][..i] == workers[..i];
      if w.state == Unused {
        continue;
      }
      if w.lastHeartbeat < 0 || now < w.lastHeartbeat {
        assert Used(workers[i]);
        return None;
      }
      var slot := if w.state == Alive then ActiveSlot(jobs, w.id) else |jobs|;
      var active := if slot < |jobs| then Some(jobs[slot]) else None;
      entries := entries + [WorkerSummary(w.id, if w.state == Alive then 1 else 2, now - w.lastHeartbeat,
                                          if active.None? then 0 else active.value.id,
                                          if active.None? then 0 else active.value.attempt)];
    }
    assert workers[..|workers|] == workers;
    list := Some(SortBy((e: WorkerSummary) => e.workerId, entries));
  }
}
