/** Statistics of a store (src/coordinator/coordinator_stats.c).

    The totals are defined here by what they mean; `StatsCollector` computes them
    with the loops of the source. */
module Statistics {
  import opened Base
  import opened JobModel
  import opened Messages
  import opened SchedulerModel
  import opened RegistryModel
  import opened StoreModel
  import opened Protocol

  // ---------- totals over the jobs ----------

  function CountState(jobs: seq<Job>, state: JobState): (count: nat)
    ensures count <= |jobs|
  {
    if jobs == [] then 0
    else CountState(jobs[..|jobs| - 1], state) + (if jobs[|jobs| - 1].state == state then 1 else 0)
  }

  function SumAttempts(jobs: seq<Job>): nat {
    if jobs == [] then 0 else SumAttempts(jobs[..|jobs| - 1]) + jobs[|jobs| - 1].attempt
  }

  function SumRetries(jobs: seq<Job>): (sum: nat)
    ensures sum <= |jobs| * U32_MAX
  {
    if jobs == [] then 0 else SumRetries(jobs[..|jobs| - 1]) + jobs[|jobs| - 1].retryCount
  }

  /** From acceptance to completion. */
  function Latency(job: Job): int {
    job.finishedAt - job.createdAt
  }

  function SumLatency(jobs: seq<Job>): int {
    if jobs == [] then 0
    else SumLatency(jobs[..|jobs| - 1]) + (if jobs[|jobs| - 1].state == Done then Latency(jobs[|jobs| - 1]) else 0)
  }

  /** The exact floored mean of all completed latencies. */
  function MeanLatency(jobs: seq<Job>): int {
    var completed := CountState(jobs, Done);
    if completed == 0 then 0 else SumLatency(jobs) / completed
  }

  /** What the first loop of `collect_jobs` requires of each record. */
  predicate AttemptsOk(job: Job) {
    job.retryCount <= job.maxRetries && job.attempt == job.retryCount + (if job.state == Queued then 0 else 1)
  }

  /** ... and what the second loop requires. */
  predicate TimesOk(job: Job) {
    job.state == Done ==> 0 <= job.createdAt <= job.finishedAt
  }

  predicate Countable(job: Job) {
    AttemptsOk(job) && TimesOk(job)
  }

  predicate AllTimesOk(jobs: seq<Job>) {
    forall i :: 0 <= i < |jobs| ==> TimesOk(jobs[i])
  }

  predicate AllCountable(jobs: seq<Job>) {
    forall i :: 0 <= i < |jobs| ==> Countable(jobs[i])
  }

  lemma {:induction false} AttemptsAreRetries(jobs: seq<Job>)
    requires AllCountable(jobs)
    ensures SumAttempts(jobs) == SumRetries(jobs) + |jobs| - CountState(jobs, Queued)
  {
    if jobs != [] {
      AttemptsAreRetries(jobs[..|jobs| - 1]);
      assert Countable(jobs[|jobs| - 1]);
    }
  }

  lemma {:induction false} StatesPartition(jobs: seq<Job>)
    ensures CountState(jobs, Queued) + CountState(jobs, Assigned) + CountState(jobs, Running)
            + CountState(jobs, Done) + CountState(jobs, Failed) == |jobs|
  {
    if jobs != [] {
      StatesPartition(jobs[..|jobs| - 1]);
    }
  }

  lemma {:induction false} LatencyBounded(jobs: seq<Job>)
    requires AllTimesOk(jobs)
    ensures 0 <= SumLatency(jobs) <= CountState(jobs, Done) * I64_MAX
  {
    if jobs != [] {
      LatencyBounded(jobs[..|jobs| - 1]);
      assert TimesOk(jobs[|jobs| - 1]);
    }
  }

  lemma CountableTimes(jobs: seq<Job>)
    requires AllCountable(jobs)
    ensures AllTimesOk(jobs)
  {
    forall i | 0 <= i < |jobs| ensures TimesOk(jobs[i]) {
      assert Countable(jobs[i]);
    }
  }

  lemma MeanBounded(jobs: seq<Job>)
    requires AllTimesOk(jobs)
    ensures 0 <= MeanLatency(jobs) <= I64_MAX
  {
    LatencyBounded(jobs);
    var n := CountState(jobs, Done);
    if n != 0 {
      QuotientBound(SumLatency(jobs), n, I64_MAX);
    }
  }

  lemma CancelFactor(q: int, limit: int, n: int)
    requires n > 0 && q * n <= limit * n
    ensures q <= limit
  {}

  lemma QuotientBound(sum: int, n: nat, limit: nat)
    requires n > 0 && 0 <= sum <= n * limit
    ensures 0 <= sum / n <= limit
  {
    assert (sum / n) * n <= sum <= limit * n;
    CancelFactor(sum / n, limit, n);
  }

  // ---------- the workers ----------

  predicate Expired(w: Worker, now: i64, timeout: int) {
    w.state == Alive && TimedOut(w, now, timeout)
  }

  predicate Busy(jobs: seq<Job>, w: Worker, now: i64, timeout: int) {
    w.state == Alive && !TimedOut(w, now, timeout) && ActiveSlot(jobs, w.id) < |jobs|
  }

  predicate IdleWorker(jobs: seq<Job>, w: Worker, now: i64, timeout: int) {
    w.state == Alive && !TimedOut(w, now, timeout) && ActiveSlot(jobs, w.id) == |jobs|
  }

  function CountDead(workers: seq<Worker>): (count: nat)
    ensures count <= |workers|
  {
    if workers == [] then 0
    else CountDead(workers[..|workers| - 1]) + (if workers[|workers| - 1].state == Dead then 1 else 0)
  }

  function CountExpired(workers: seq<Worker>, now: i64, timeout: int): (count: nat)
    ensures count <= |workers|
  {
    if workers == [] then 0
    else CountExpired(workers[..|workers| - 1], now, timeout)
         + (if Expired(workers[|workers| - 1], now, timeout) then 1 else 0)
  }

  function CountBusy(jobs: seq<Job>, workers: seq<Worker>, now: i64, timeout: int): (count: nat)
    ensures count <= |workers|
  {
    if workers == [] then 0
    else CountBusy(jobs, workers[..|workers| - 1], now, timeout)
         + (if Busy(jobs, workers[|workers| - 1], now, timeout) then 1 else 0)
  }

  function CountIdle(jobs: seq<Job>, workers: seq<Worker>, now: i64, timeout: int): (count: nat)
    ensures count <= |workers|
  {
    if workers == [] then 0
    else CountIdle(jobs, workers[..|workers| - 1], now, timeout)
         + (if IdleWorker(jobs, workers[|workers| - 1], now, timeout) then 1 else 0)
  }

  function CountUsed(workers: seq<Worker>): (count: nat)
    ensures count <= |workers|
  {
    if workers == [] then 0
    else CountUsed(workers[..|workers| - 1]) + (if Used(workers[|workers| - 1]) then 1 else 0)
  }

  lemma {:induction false} WorkersPartition(jobs: seq<Job>, workers: seq<Worker>, now: i64, timeout: int)
    ensures CountUsed(workers) == CountDead(workers) + CountExpired(workers, now, timeout)
                                  + CountBusy(jobs, workers, now, timeout) + CountIdle(jobs, workers, now, timeout)
  {
    if workers != [] {
      WorkersPartition(jobs, workers[..|workers| - 1], now, timeout);
    }
  }

  /** No live worker's heartbeat lies in the future. */
  predicate ClocksOk(workers: seq<Worker>, now: i64) {
    forall i :: 0 <= i < |workers| && workers[i].state == Alive ==> 0 <= workers[i].lastHeartbeat <= now
  }

  // ---------- busy workers hold distinct active jobs ----------

  function ActiveSlots(jobs: seq<Job>): (slots: set<int>) {
    set i | 0 <= i < |jobs| && IsActive(jobs[i])
  }

  lemma {:induction false} ActiveSlotsCount(jobs: seq<Job>)
    ensures |ActiveSlots(jobs)| == CountState(jobs, Assigned) + CountState(jobs, Running)
  {
    if jobs != [] {
      var n := |jobs| - 1;
      ActiveSlotsCount(jobs[..n]);
      assert n !in ActiveSlots(jobs[..n]);
      assert ActiveSlots(jobs) == ActiveSlots(jobs[..n]) + (if IsActive(jobs[n]) then {n} else {});
    }
  }

  /** The slots held by busy workers. */
  function HeldSlots(jobs: seq<Job>, workers: seq<Worker>, now: i64, timeout: int): (slots: set<int>)
    ensures slots <= ActiveSlots(jobs)
    ensures forall slot :: slot in slots ==> HeldBySome(jobs, workers, now, timeout, slot)
  {
    if workers == [] then {}
    else
      var n := |workers| - 1;
      var rest := HeldSlots(jobs, workers[..n], now, timeout);
      assert forall slot :: HeldBySome(jobs, workers[..n], now, timeout, slot) ==>
        HeldBySome(jobs, workers, now, timeout, slot);
      if Busy(jobs, workers[n], now, timeout) then rest + {ActiveSlot(jobs, workers[n].id) as int} else rest
  }

  predicate HeldBySome(jobs: seq<Job>, workers: seq<Worker>, now: i64, timeout: int, slot: int) {
    exists i :: 0 <= i < |workers| && Busy(jobs, workers[i], now, timeout) && ActiveSlot(jobs, workers[i].id) == slot
  }

  predicate DistinctIds(workers: seq<Worker>) {
    forall i, j :: 0 <= i < j < |workers| && Used(workers[i]) && Used(workers[j]) ==> workers[i].id != workers[j].id
  }

  lemma {:induction false} HeldSlotsCount(jobs: seq<Job>, workers: seq<Worker>, now: i64, timeout: int)
    requires DistinctIds(workers)
    ensures |HeldSlots(jobs, workers, now, timeout)| == CountBusy(jobs, workers, now, timeout)
  {
    hide ActiveSlot;
    if workers != [] {
      var n := |workers| - 1;
      HeldSlotsCount(jobs, workers[..n], now, timeout);
      if Busy(jobs, workers[n], now, timeout) {
        NotHeldTwice(jobs, workers, now, timeout);
      }
    }
  }

  lemma NotHeldTwice(jobs: seq<Job>, workers: seq<Worker>, now: i64, timeout: int)
    requires workers != [] && DistinctIds(workers) && Busy(jobs, workers[|workers| - 1], now, timeout)
    ensures !HeldBySome(jobs, workers[..|workers| - 1], now, timeout, ActiveSlot(jobs, workers[|workers| - 1].id))
  {
    var n := |workers| - 1;
    forall i | 0 <= i < n && Busy(jobs, workers[i], now, timeout)
      ensures ActiveSlot(jobs, workers[i].id) != ActiveSlot(jobs, workers[n].id)
    {
      assert Used(workers[i]) && Used(workers[n]);
    }
  }

  lemma BusyHoldJobs(jobs: seq<Job>, workers: seq<Worker>, now: i64, timeout: int)
    requires DistinctIds(workers)
    ensures CountBusy(jobs, workers, now, timeout) <= CountState(jobs, Assigned) + CountState(jobs, Running)
  {
    HeldSlotsCount(jobs, workers, now, timeout);
    ActiveSlotsCount(jobs);
    SubsetCardinality(HeldSlots(jobs, workers, now, timeout), ActiveSlots(jobs));
  }

  // ---------- snapshots ----------

  /** The baseline taken once after startup. */
  datatype Session = Session(
    readyAt: i64, startupDuration: u64, interrupted: u64,
    submittedAtStart: u64, completedAtStart: u64, failedAtStart: u64, retriesAtStart: u64)

  predicate Collectable(store: Store) {
    store.isOpen && store.fault == NoFault && |store.jobs.jobs| <= MAX_JOB_ENTRIES && AllCountable(store.jobs.jobs)
  }

  /** `faultline_stats_begin`. */
  function Begin(store: Store, now: i64): Option<Session> {
    var jobs := store.jobs.jobs;
    if store.sessionStart < 0 || now < store.sessionStart || !Collectable(store) || store.interrupted > |jobs| then None
    else Some(Session(now, now - store.sessionStart, store.interrupted, |jobs|,
                      CountState(jobs, Done), CountState(jobs, Failed), SumRetries(jobs)))
  }

  predicate SessionOk(session: Session) {
    session.interrupted <= session.submittedAtStart && session.startupDuration <= I64_MAX
  }

  lemma BeginOk(store: Store, now: i64)
    ensures Begin(store, now).Some? ==> SessionOk(Begin(store, now).value)
  {}

  /** Nothing counted at the start is gone. */
  predicate SinceStart(session: Session, jobs: seq<Job>) {
    && session.submittedAtStart <= |jobs|
    && session.completedAtStart <= CountState(jobs, Done)
    && session.failedAtStart <= CountState(jobs, Failed)
    && session.retriesAtStart <= SumRetries(jobs)
  }

  predicate Snapshottable(session: Session, store: Store, now: i64, timeout: i32) {
    && 0 <= session.readyAt <= now && 0 < timeout
    && Collectable(store) && SinceStart(session, store.jobs.jobs)
    && |store.workers.workers| == MAX_WORKERS && ClocksOk(store.workers.workers, now)
  }

  /** `faultline_stats_snapshot`. */
  function Snapshot(session: Session, store: Store, now: i64, timeout: i32): Option<Stats> {
    if !Snapshottable(session, store, now, timeout) then None
    else
      var jobs, workers := store.jobs.jobs, store.workers.workers;
      assert AllTimesOk(jobs) by { CountableTimes(jobs); }
      MeanBounded(jobs); AttemptsAreRetries(jobs);
      Some(Stats(
        |jobs|, CountState(jobs, Queued), CountState(jobs, Assigned), CountState(jobs, Running),
        CountState(jobs, Done), CountState(jobs, Failed), SumAttempts(jobs), SumRetries(jobs), MeanLatency(jobs),
        CountUsed(workers), CountBusy(jobs, workers, now, timeout) + CountIdle(jobs, workers, now, timeout),
        CountExpired(workers, now, timeout), CountDead(workers),
        CountBusy(jobs, workers, now, timeout), CountIdle(jobs, workers, now, timeout),
        now - session.readyAt, |jobs| - session.submittedAtStart,
        CountState(jobs, Done) - session.completedAtStart, CountState(jobs, Failed) - session.failedAtStart,
        SumRetries(jobs) - session.retriesAtStart,
        session.submittedAtStart, session.interrupted, session.startupDuration, timeout))
  }

  /** Every successful snapshot passes the wire validator. */
  lemma SnapshotIsValid(session: Session, store: Store, now: i64, timeout: i32)
    requires RegistryOk(store.workers) && SessionOk(session) && Snapshot(session, store, now, timeout).Some?
    ensures StatsValid(Snapshot(session, store, now, timeout).value)
  {
    hide CountState, SumAttempts, SumRetries, MeanLatency, CountUsed, CountBusy, CountIdle, CountExpired, CountDead;
    var jobs, workers := store.jobs.jobs, store.workers.workers;
    StatesPartition(jobs);
    AttemptsAreRetries(jobs);
    CountableTimes(jobs);
    MeanBounded(jobs);
    MeanOfNone(jobs);
    WorkersPartition(jobs, workers, now, timeout);
    BusyHoldJobs(jobs, workers, now, timeout);
  }

  lemma MeanOfNone(jobs: seq<Job>)
    ensures CountState(jobs, Done) == 0 ==> MeanLatency(jobs) == 0
  {}

  /** Jobs of a healthy store can always be counted. */
  lemma HealthyJobsCountable(jobs: seq<Job>)
    requires AllJobsOk(jobs)
    ensures AllCountable(jobs)
  {
    forall i | 0 <= i < |jobs| ensures Countable(jobs[i]) {
      assert JobOk(jobs[i]);
    }
  }
}
