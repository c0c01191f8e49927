/** The loops of src/coordinator/coordinator_stats.c, in 64-bit unsigned arithmetic. */
module StatsCollectors {
  import opened Base
  import opened JobModel
  import opened Messages
  import opened SchedulerModel
  import opened RegistryModel
  import opened StoreModel
  import opened Protocol
  import opened Statistics

  /** The sums that `collect_jobs` accumulates in its first loop. */
  datatype Totals = Totals(queued: u64, leased: u64, running: u64, completed: u64, failed: u64,
                           attempts: u64, retries: u64)

  ghost predicate Totalled(totals: Totals, jobs: seq<Job>) {
    && totals.queued == CountState(jobs, Queued) && totals.leased == CountState(jobs, Assigned)
    && totals.running == CountState(jobs, Running) && totals.completed == CountState(jobs, Done)
    && totals.failed == CountState(jobs, Failed)
    && totals.attempts == SumAttempts(jobs) && totals.retries == SumRetries(jobs)
  }

  lemma {:induction false} SumsFit(jobs: seq<Job>)
    requires forall i :: 0 <= i < |jobs| ==> AttemptsOk(jobs[i])
    ensures SumAttempts(jobs) <= |jobs| * 0x1_0000_0000 && SumRetries(jobs) <= |jobs| * 0x1_0000_0000
  {
    if jobs != [] {
      SumsFit(jobs[..|jobs| - 1]);
      assert AttemptsOk(jobs[|jobs| - 1]);
    }
  }

  /** One more job on every total. */
  method Tally(totals: Totals, job: Job, ghost before: seq<Job>) returns (after: Totals)
    requires Totalled(totals, before) && |before| < MAX_JOB_ENTRIES && AttemptsOk(job)
    requires forall k :: 0 <= k < |before| ==> AttemptsOk(before[k])
    ensures Totalled(after, before + [job])
  {
    hide CountState, SumAttempts, SumRetries;
    SumsFit(before);
    OneMore(before, job);
    after := totals;
    match job.state {
      case Queued => after := after.(queued := after.queued + 1);
      case Assigned => after := after.(leased := after.leased + 1);
      case Running => after := after.(running := after.running + 1);
      case Done => after := after.(completed := after.completed + 1);
      case Failed => after := after.(failed := after.failed + 1);
    }
    after := after.(attempts := after.attempts + job.attempt);
    after := after.(retries := after.retries + job.retryCount);
  }

  lemma OneMore(jobs: seq<Job>, job: Job)
    ensures forall s :: CountState(jobs + [job], s) == CountState(jobs, s) + if job.state == s then 1 else 0
    ensures SumAttempts(jobs + [job]) == SumAttempts(jobs) + job.attempt
    ensures SumRetries(jobs + [job]) == SumRetries(jobs) + job.retryCount
    ensures SumLatency(jobs + [job]) == SumLatency(jobs) + if job.state == Done then Latency(job) else 0
  {
    assert (jobs + [job])[..|jobs|] == jobs;
  }

  method TallyAll(jobs: seq<Job>) returns (totals: Option<Totals>)
    requires |jobs| <= MAX_JOB_ENTRIES
    ensures totals.Some? <==> forall k :: 0 <= k < |jobs| ==> AttemptsOk(jobs[k])
    ensures totals.Some? ==> Totalled(totals.value, jobs)
  {
    var sums := Totals(0, 0, 0, 0, 0, 0, 0);
    for i := 0 to |jobs|
      invariant Totalled(sums, jobs[..i])
      invariant forall k :: 0 <= k < i ==> AttemptsOk(jobs[k])
    {
      if jobs[i].retryCount > jobs[i].maxRetries
         || jobs[i].attempt != jobs[i].retryCount + (if jobs[i].state == Queued then 0 else 1) {
        assert !AttemptsOk(jobs[i]);
        return None;
      }
      sums := Tally(sums, jobs[i], jobs[..i]);
      assert jobs[..i] + [jobs[i]] == jobs[..i + 1];
    }
    assert jobs[..|jobs|] == jobs;
    totals := Some(sums);
  }

  /** The quotients and remainders add up to the sum. */
  ghost predicate Shared(average: nat, remainder: nat, n: nat, jobs: seq<Job>) {
    && average * n + remainder == SumLatency(jobs) && (n == 0 ==> average == 0)
    && remainder <= CountState(jobs, Done) * n
  }

  lemma Distribute(a: nat, b: nat, n: nat)
    ensures (a + b) * n == a * n + b * n
  {}

  lemma ShareMore(average: nat, remainder: nat, n: nat, jobs: seq<Job>, job: Job, quotient: nat, rest: nat)
    requires Shared(average, remainder, n, jobs) && n > 0
    requires job.state == Done && TimesOk(job) && Latency(job) == quotient * n + rest && rest < n
    ensures Shared(average + quotient, remainder + rest, n, jobs + [job])
  {
    hide CountState, SumLatency;
    OneMore(jobs, job);
    Distribute(average, quotient, n);
    Distribute(CountState(jobs, Done), 1, n);
  }

  lemma ProductMonotone(a: nat, b: nat, n: nat)
    requires a <= b
    ensures a * n <= b * n
  {}

  lemma SharedFits(average: nat, remainder: nat, n: nat, jobs: seq<Job>)
    requires Shared(average, remainder, n, jobs) && 0 < n <= MAX_JOB_ENTRIES && |jobs| <= MAX_JOB_ENTRIES
    requires AllTimesOk(jobs)
    requires CountState(jobs, Done) <= n
    ensures average <= I64_MAX && remainder <= MAX_JOB_ENTRIES * MAX_JOB_ENTRIES
  {
    hide CountState, SumLatency;
    LatencyBounded(jobs);
    var done := CountState(jobs, Done);
    ProductMonotone(done, n, I64_MAX);
    CancelFactor(average, I64_MAX, n);
    ProductMonotone(done, MAX_JOB_ENTRIES, n);
    ProductMonotone(n, MAX_JOB_ENTRIES, MAX_JOB_ENTRIES);
  }

  lemma {:induction false} PrefixCount(jobs: seq<Job>, i: nat, state: JobState)
    requires i <= |jobs|
    ensures CountState(jobs[..i], state) <= CountState(jobs, state)
    decreases |jobs|
  {
    if i < |jobs| {
      PrefixCount(jobs[..|jobs| - 1], i, state);
      assert jobs[..|jobs| - 1][..i] == jobs[..i];
    } else {
      assert jobs[..i] == jobs;
    }
  }

  lemma MeanOfShares(average: nat, remainder: nat, n: nat, sum: nat)
    requires n > 0 && average * n + remainder == sum
    ensures average + remainder / n == sum / n
  {
    var q, r := remainder / n, remainder % n;
    Distribute(average, q, n);
    DivisionIsUnique(sum, n, average + q, r);
  }

  method Divide(dividend: u64, divisor: u64) returns (quotient: u64, rest: u64)
    requires divisor > 0
    ensures dividend == quotient * divisor + rest && rest < divisor
  {
    quotient := dividend / divisor;
    rest := dividend % divisor;
  }

  lemma DivisionIsUnique(sum: nat, n: nat, q: nat, r: nat)
    requires n > 0 && sum == q * n + r && r < n
    ensures sum / n == q
  {
    QuotientsAgree(sum / n, sum % n, q, r, n);
  }

  lemma QuotientsAgree(p: nat, s: nat, q: nat, r: nat, n: nat)
    requires p * n + s == q * n + r && s < n && r < n
    ensures p == q
  {
    if p < q {
      ProductMonotone(p + 1, q, n);
    } else if q < p {
      ProductMonotone(q + 1, p, n);
    }
  }

  /** One completed job's share: its quotient, and its remainder. */
  method Share(average: u64, remainder: u64, n: u64, job: Job, ghost before: seq<Job>)
      returns (nextAverage: u64, nextRemainder: u64)
    requires Shared(average, remainder, n, before) && 0 < n <= MAX_JOB_ENTRIES && |before| < MAX_JOB_ENTRIES
    requires AllTimesOk(before)
    requires job.state == Done && TimesOk(job) && CountState(before + [job], Done) <= n
    ensures Shared(nextAverage, nextRemainder, n, before + [job])
  {
    hide Shared, CountState;
    var latency: u64 := job.finishedAt - job.createdAt;
    var quotient, rest := Divide(latency, n);
    ShareMore(average, remainder, n, before, job, quotient, rest);
    SharedFits(average + quotient, remainder + rest, n, before + [job]);
    nextAverage := average + quotient;
    nextRemainder := remainder + rest;
  }

  /** The second loop of `collect_jobs`: the exact floored mean of all completed
      latencies, without ever adding them up. */
  method AverageLatency(jobs: seq<Job>, completed: u64) returns (mean: Option<u64>)
    requires |jobs| <= MAX_JOB_ENTRIES && completed == CountState(jobs, Done)
    ensures mean.Some? <==> AllTimesOk(jobs)
    ensures mean.Some? ==> mean.value == MeanLatency(jobs)
  {
    hide Shared, CountState, MeanLatency;
    var average: u64, remainder: u64 := 0, 0;
    NothingShared(completed);
    for i := 0 to |jobs|
      invariant Shared(average, remainder, completed, jobs[..i])
      invariant AllTimesOk(jobs[..i])
    {
      var job := jobs[i];
      assert jobs[..i] + [job] == jobs[..i + 1];
      if job.state == Done {
        if job.createdAt < 0 || job.finishedAt < job.createdAt {
          assert !TimesOk(jobs[i]);
          return None;
        }
        CompletedSoFar(jobs, i);
        average, remainder := Share(average, remainder, completed, job, jobs[..i]);
      } else {
        ShareSkip(average, remainder, completed, jobs[..i], job);
      }
    }
    assert jobs[..|jobs|] == jobs;
    MeanIs(average, remainder, completed, jobs);
    if completed != 0 {
      MeanBounded(jobs);
      average := average + remainder / completed;
    }
    mean := Some(average);
  }

  lemma CompletedSoFar(jobs: seq<Job>, i: nat)
    requires i < |jobs| && jobs[i].state == Done
    ensures 0 < CountState(jobs[..i + 1], Done) <= CountState(jobs, Done) <= |jobs|
  {
    hide CountState, SumAttempts, SumRetries, SumLatency;
    PrefixCount(jobs, i + 1, Done);
    OneMore(jobs[..i], jobs[i]);
    assert jobs[..i] + [jobs[i]] == jobs[..i + 1];
  }

  lemma NothingShared(n: nat)
    ensures Shared(0, 0, n, [])
  {}

  lemma ShareSkip(average: nat, remainder: nat, n: nat, jobs: seq<Job>, job: Job)
    requires Shared(average, remainder, n, jobs) && job.state != Done
    ensures Shared(average, remainder, n, jobs + [job])
  {
    OneMore(jobs, job);
  }

  lemma MeanIs(average: nat, remainder: nat, n: nat, jobs: seq<Job>)
    requires Shared(average, remainder, n, jobs) && n == CountState(jobs, Done)
    requires AllTimesOk(jobs)
    ensures n != 0 ==> average + remainder / n == MeanLatency(jobs)
    ensures n == 0 ==> average == 0 == MeanLatency(jobs)
  {
    LatencyBounded(jobs);
    if n != 0 {
      MeanOfShares(average, remainder, n, SumLatency(jobs));
    }
  }

  /** `collect_jobs` on the records of a store. */
  method CollectJobs(jobs: seq<Job>) returns (totals: Option<Totals>, mean: u64)
    requires |jobs| <= MAX_JOB_ENTRIES
    ensures totals.Some? <==> AllCountable(jobs)
    ensures totals.Some? ==> Totalled(totals.value, jobs) && mean == MeanLatency(jobs)
  {
    hide CountState, SumAttempts, SumRetries, MeanLatency;
    mean := 0;
    totals := TallyAll(jobs);
    assert forall k :: 0 <= k < |jobs| ==> (Countable(jobs[k]) <==> AttemptsOk(jobs[k]) && TimesOk(jobs[k]));
    if totals.None? {
      return;
    }
    var average := AverageLatency(jobs, totals.value.completed);
    if average.None? {
      return None, 0;
    }
    mean := average.value;
  }

  datatype Census = Census(retained: u64, alive: u64, expired: u64, dead: u64, busy: u64, idle: u64)

  ghost predicate Counted(census: Census, jobs: seq<Job>, workers: seq<Worker>, now: i64, timeout: int) {
    && census.retained == CountUsed(workers) && census.dead == CountDead(workers)
    && census.expired == CountExpired(workers, now, timeout)
    && census.busy == CountBusy(jobs, workers, now, timeout) && census.idle == CountIdle(jobs, workers, now, timeout)
    && census.alive == CountBusy(jobs, workers, now, timeout) + CountIdle(jobs, workers, now, timeout)
  }

  lemma OneMoreWorker(jobs: seq<Job>, workers: seq<Worker>, w: Worker, now: i64, timeout: int)
    ensures CountUsed(workers + [w]) == CountUsed(workers) + if Used(w) then 1 else 0
    ensures CountDead(workers + [w]) == CountDead(workers) + if w.state == Dead then 1 else 0
    ensures CountExpired(workers + [w], now, timeout)
        == CountExpired(workers, now, timeout) + if Expired(w, now, timeout) then 1 else 0
    ensures CountBusy(jobs, workers + [w], now, timeout)
         == CountBusy(jobs, workers, now, timeout) + if Busy(jobs, w, now, timeout) then 1 else 0
    ensures CountIdle(jobs, workers + [w], now, timeout)
         == CountIdle(jobs, workers, now, timeout) + if IdleWorker(jobs, w, now, timeout) then 1 else 0
  {
    assert (workers + [w])[..|workers|] == workers;
  }

  /** The loop over the registry in `faultline_stats_snapshot`. */
  method CountWorkers(jobs: seq<Job>, workers: seq<Worker>, now: i64, timeout: int) returns (census: Option<Census>)
    requires |workers| <= MAX_WORKERS
    ensures census.Some? <==> ClocksOk(workers, now)
    ensures census.Some? ==> Counted(census.value, jobs, workers, now, timeout)
  {
    hide CountUsed, CountDead, CountExpired, CountBusy, CountIdle, ActiveSlot;
    var c := Census(0, 0, 0, 0, 0, 0);
    NobodyCounted(jobs, now, timeout);
    for i := 0 to |workers|
      invariant Counted(c, jobs, workers[..i], now, timeout)
      invariant ClocksOk(workers[..i], now)
    {
      var w := workers[i];
      OneMoreWorker(jobs, workers[..i], w, now, timeout);
      assert workers[..i] + [w] == workers[..i + 1];
      if w.state == Unused {
        continue;
      }
      c := c.(retained := c.retained + 1);
      if w.state == Dead {
        c := c.(dead := c.dead + 1);
        continue;
      }
      if w.lastHeartbeat < 0 || now < w.lastHeartbeat {
        assert workers[i] == w;
        return None;
      }
      if TimedOut(w, now, timeout) {
        c := c.(expired := c.expired + 1);
      } else {
        c := c.(alive := c.alive + 1);
        if ActiveSlot(jobs, w.id) < |jobs| {
          c := c.(busy := c.busy + 1);
        } else {
          c := c.(idle := c.idle + 1);
        }
      }
    }
    assert workers[..|workers|] == workers;
    census := Some(c);
  }

  lemma NobodyCounted(jobs: seq<Job>, now: i64, timeout: int)
    ensures Counted(Census(0, 0, 0, 0, 0, 0), jobs, [], now, timeout)
  {}

  /** `faultline_stats_begin`. */
  method BeginSession(store: Store, now: i64) returns (session: Option<Session>)
    ensures session == Begin(store, now)
  {
    hide CountState, SumAttempts, SumRetries, MeanLatency;
    var jobs := store.jobs.jobs;
    if store.sessionStart < 0 || now < store.sessionStart || !store.isOpen || store.fault != NoFault
        || |jobs| > MAX_JOB_ENTRIES {
      return None;
    }
    var totals, mean := CollectJobs(jobs);
    if totals.None? || store.interrupted > |jobs| {
      return None;
    }
    session := Some(Session(now, now - store.sessionStart, store.interrupted, |jobs|,
                            totals.value.completed, totals.value.failed, totals.value.retries));
  }

  /** `faultline_stats_snapshot`: the loops compute exactly the totals that the
      snapshot is defined by. */
  method TakeSnapshot(session: Session, store: Store, now: i64, timeout: i32) returns (stats: Option<Stats>)
    requires |store.workers.workers| == MAX_WORKERS
    ensures stats == Snapshot(session, store, now, timeout)
  {
    hide CountState, SumAttempts, SumRetries, MeanLatency, CountUsed, CountDead, CountExpired, CountBusy, CountIdle;
    var jobs, workers := store.jobs.jobs, store.workers.workers;
    if session.readyAt < 0 || now < session.readyAt || timeout <= 0
       || !store.isOpen || store.fault != NoFault || |jobs| > MAX_JOB_ENTRIES {
      return None;
    }
    var totals, mean := CollectJobs(jobs);
    if totals.None? {
      return None;
    }
    var t := totals.value;
    if |jobs| < session.submittedAtStart || t.completed < session.completedAtStart
       || t.failed < session.failedAtStart || t.retries < session.retriesAtStart {
      return None;
    }
    var census := CountWorkers(jobs, workers, now, timeout);
    if census.None? {
      return None;
    }
    var c := census.value;
    stats := Some(Stats(
      |jobs|, t.queued, t.leased, t.running, t.completed, t.failed, t.attempts, t.retries, mean,
      c.retained, c.alive, c.expired, c.dead, c.busy, c.idle,
      now - session.readyAt, |jobs| - session.submittedAtStart,
      t.completed - session.completedAtStart, t.failed - session.failedAtStart, t.retries - session.retriesAtStart,
      session.submittedAtStart, session.interrupted, session.startupDuration, timeout));
  }
}
