/** Startup: what reconciliation does to the jobs, and that it is confluent. */
module Recovery {
  import opened Base
  import opened JobModel
  import opened SchedulerModel
  import opened WalFormat
  import opened WriterModel
  import opened HistoryModel
  import opened ReplayModel
  import opened RegistryModel
  import opened StoreModel
  import opened StartupModel
  import opened Durability
  import opened Settlement

  // ---------- what settling does to the jobs ----------

  /** The jobs from slot `i` on that get another attempt, in ascending order. */
  function Retried(jobs: seq<Job>, i: nat): seq<u64>
    decreases |jobs| - i
  {
    if i >= |jobs| then []
    else if IsActive(jobs[i]) && AfterFailure(jobs[i]) == Queued then [jobs[i].id] + Retried(jobs, i + 1)
    else Retried(jobs, i + 1)
  }

  /** `job` as reconciliation at time `now` leaves it. */
  predicate SettledAs(job: Job, settled: Job, now: i64) {
    if IsActive(job) then
      Fail(job, job.workerId, job.attempt, WorkerLost, now) == Ok(settled)
    else settled == job
  }

  lemma {:induction false} RetriedFrame(a: seq<Job>, b: seq<Job>, i: nat)
    requires |a| == |b| && forall k :: i <= k < |a| ==> a[k] == b[k]
    ensures Retried(a, i) == Retried(b, i)
    decreases |a| - i
  {
    if i < |a| {
      RetriedFrame(a, b, i + 1);
    }
  }

  /** Nothing but the jobs, the queue and the sequence number changes. */
  lemma {:induction false} SettleKeepsRest(h: History, i: nat)
    requires HistoryOk(h)
    ensures var after := Settle(h, i).history;
            && HistoryOk(after)
            && |after.scheduler.jobs| == |h.scheduler.jobs|
            && after == h.(scheduler := after.scheduler, lastSequence := after.lastSequence)
            && after.scheduler.nextJobId == h.scheduler.nextJobId
    decreases |h.scheduler.jobs| - i
  {
    hide HistoryOk, EncodeRecord, Apply, Lost;
    if i >= |h.scheduler.jobs| {
    } else if !IsActive(h.scheduler.jobs[i]) {
      SettleKeepsRest(h, i + 1);
    } else if h.lastSequence < U64_MAX {
      LossRecordApplies(h, i);
      SettleKeepsRest(AfterLoss(h, i), i + 1);
    }
  }

  lemma {:induction false} SettleJob(h: History, i: nat, k: nat)
    requires HistoryOk(h) && SettledBefore(h, i) && Settle(h, i).complete && k < |h.scheduler.jobs|
    ensures |Settle(h, i).history.scheduler.jobs| == |h.scheduler.jobs|
    ensures var settled := Settle(h, i).history.scheduler.jobs[k];
            && !IsActive(settled)
            && (if k < i then settled == h.scheduler.jobs[k] else SettledAs(h.scheduler.jobs[k], settled, h.timeBase))
    decreases |h.scheduler.jobs| - i
  {
    hide HistoryOk, EncodeRecord, Apply, Fail, AfterFailure, LossRecord, Lost;
    SettleKeepsRest(h, i);
    if i >= |h.scheduler.jobs| {
    } else if !IsActive(h.scheduler.jobs[i]) {
      SettleJob(h, i + 1, k);
    } else {
      LossRecordApplies(h, i);
      LostIs(h, i);
      SettleJob(AfterLoss(h, i), i + 1, k);
    }
  }

  lemma {:induction false} SettleQueue(h: History, i: nat)
    requires HistoryOk(h) && Settle(h, i).complete
    ensures Settle(h, i).history.scheduler.pending == h.scheduler.pending + Retried(h.scheduler.jobs, i)
    decreases |h.scheduler.jobs| - i
  {
    hide HistoryOk, EncodeRecord, Apply, Fail, AfterFailure, LossRecord, Lost;
    var jobs := h.scheduler.jobs;
    if i >= |jobs| {
    } else if !IsActive(jobs[i]) {
      SettleQueue(h, i + 1);
    } else {
      LossRecordApplies(h, i);
      LostIs(h, i);
      var next := AfterLoss(h, i);
      SettleQueue(next, i + 1);
      RetriedFrame(jobs, next.scheduler.jobs, i + 1);
    }
  }

  /** How many jobs from slot `i` on are active: the attempts a startup has to settle. */
  function ActiveFrom(jobs: seq<Job>, i: nat): (count: nat)
    decreases |jobs| - i
  {
    if i >= |jobs| then 0 else (if IsActive(jobs[i]) then 1 else 0) + ActiveFrom(jobs, i + 1)
  }

  lemma {:induction false} ActiveFrame(a: seq<Job>, b: seq<Job>, i: nat)
    requires |a| == |b| && forall k :: i <= k < |a| ==> a[k] == b[k]
    ensures ActiveFrom(a, i) == ActiveFrom(b, i)
    decreases |a| - i
  {
    if i < |a| {
      ActiveFrame(a, b, i + 1);
    }
  }

  /** There is a sequence number left for every attempt to be settled. */
  predicate NumbersSuffice(h: History) {
    ActiveFrom(h.scheduler.jobs, 0) <= U64_MAX - h.lastSequence
  }

  /** Reconciliation can be completed exactly if the sequence numbers suffice. */
  lemma {:induction false} SettleCompletes(h: History, i: nat)
    requires HistoryOk(h)
    ensures Settle(h, i).complete <==> ActiveFrom(h.scheduler.jobs, i) <= U64_MAX - h.lastSequence
    decreases |h.scheduler.jobs| - i
  {
    hide HistoryOk, EncodeRecord, Apply, LossRecord, Lost;
    var jobs := h.scheduler.jobs;
    if i < |jobs| {
      if !IsActive(jobs[i]) {
        SettleCompletes(h, i + 1);
      } else if h.lastSequence < U64_MAX {
        LossRecordApplies(h, i);
        SettleCompletes(AfterLoss(h, i), i + 1);
        ActiveFrame(jobs, AfterLoss(h, i).scheduler.jobs, i + 1);
      }
    }
  }

  /** Reconciliation leaves no active job, charges each interrupted attempt exactly
      once, touches no other record, and appends the retried jobs to the queue in
      ascending ID order. */
  lemma SettleEffect(h: History)
    requires HistoryOk(h) && NumbersSuffice(h)
    ensures var after := Settle(h, 0).history;
            && HistoryOk(after)
            && |after.scheduler.jobs| == |h.scheduler.jobs|
            && (forall k :: 0 <= k < |h.scheduler.jobs| ==>
                  && !IsActive(after.scheduler.jobs[k])
                  && SettledAs(h.scheduler.jobs[k], after.scheduler.jobs[k], h.timeBase))
            && after.scheduler.pending == h.scheduler.pending + Retried(h.scheduler.jobs, 0)
            && after == h.(scheduler := after.scheduler, lastSequence := after.lastSequence)
            && after.scheduler.nextJobId == h.scheduler.nextJobId
  {
    hide HistoryOk, Settle, SettledAs;
    SettleCompletes(h, 0);
    SettleKeepsRest(h, 0);
    SettleQueue(h, 0);
    forall k | 0 <= k < |h.scheduler.jobs|
      ensures !IsActive(Settle(h, 0).history.scheduler.jobs[k])
      ensures SettledAs(h.scheduler.jobs[k], Settle(h, 0).history.scheduler.jobs[k], h.timeBase)
    {
      SettleJob(h, 0, k);
    }
  }

  lemma LostIs(h: History, i: nat)
    requires Unsettled(h, i)
    ensures var job := h.scheduler.jobs[i];
            && Fail(job, job.workerId, job.attempt, WorkerLost, h.timeBase) == Ok(Lost(h, job))
            && Lost(h, job).id == job.id && Lost(h, job).state == AfterFailure(job)
  {
    var job := h.scheduler.jobs[i];
    FailOk(job, job.workerId, job.attempt, WorkerLost, h.timeBase);
  }

  // ---------- repairing the tail ----------

  lemma ValidPartHolds(file: bytes)
    requires Replay(file).Ok?
    ensures Holds(ValidPart(file), Replay(file).value.history)
    ensures HistoryOk(Replay(file).value.history)
  {
    hide ReplayLog, DecodeFileHeader, FileHeader, HistoryOk;
    var log := file[FILE_HEADER_SIZE..];
    var tail := Replay(file).value.tail;
    var cut := log[..|log| - tail];
    FileHeaderCanonical(file);
    EmptyHistoryOk();
    ReplayKeepsOk(EmptyHistory(), log);
    ReplayDropsTail(EmptyHistory(), log);
    FileHeaderDecodes(cut);
    assert ValidPart(file) == FileHeader() + cut;
    assert ValidPart(file)[FILE_HEADER_SIZE..] == cut;
  }

  lemma {:induction false} TruncateOutcome(disk: Disk, size: nat)
    requires size <= |disk.file|
    ensures var out := Truncate(disk, size);
            && (out.1.file == disk.file || out.1.file == disk.file[..size])
            && (out.0 == IoOk ==> out.1.file == disk.file[..size])
    decreases |disk.script|
  {
    if disk.script != [] && disk.script[0].Interrupted? {
      TruncateOutcome(Disk(disk.file, disk.script[1..]), size);
    }
  }

  lemma RepairOutcome(disk: Disk)
    requires Replay(disk.file).Ok?
    ensures var out := Repair(disk);
            && (out.1.file == disk.file || out.1.file == ValidPart(disk.file))
            && (out.0 == IoOk ==> out.1.file == ValidPart(disk.file))
  {
    hide Replay, Truncate, Sync;
    var tail := Replay(disk.file).value.tail;
    var cut := if tail == 0 then (IoOk, disk) else Truncate(disk, |disk.file| - tail);
    TruncateOutcome(disk, |disk.file| - tail);
    SyncKeepsFile(cut.1);
    SyncKeepsFile(Sync(cut.1).1);
    assert tail == 0 ==> ValidPart(disk.file) == disk.file;
  }

  /** Cutting the tail does not move the goal. */
  lemma GoalOfValidPart(file: bytes)
    requires Replay(file).Ok?
    ensures var part := ValidPart(file);
            && HistoryOk(Replay(file).value.history)
            && Replay(part).Ok? && Replay(part).value.history == Replay(file).value.history
            && GoalFile(part) == GoalFile(file) && Goal(part) == Goal(file)
  {
    hide Replay, HistoryOk, Settle;
    ValidPartHolds(file);
    var part := ValidPart(file);
    assert ValidPart(part) == part;
  }

  // ---------- confluence ----------

  lemma RecoveredMirrors(h: History, now: i64)
    requires HistoryOk(h) && now >= 0
    ensures AtStartup(Recovered(h, now), h, now)
  {
    hide HistoryOk;
    EmptyRegistryOk(h.nextWorkerId);
  }

  /** One startup, under any environment. */
  lemma OpenOutcome(disk: Disk, now: i64, read: IoStatus)
    requires Replay(disk.file).Ok?
    ensures HistoryOk(Replay(disk.file).value.history)
    ensures var open := OpenExisting(disk, now, read);
            var file := open.disk.file;
            && Replay(file).Ok? && HistoryOk(Replay(file).value.history)
            && GoalFile(file) == GoalFile(disk.file)
            && Goal(file).history == Goal(disk.file).history && Goal(file).complete == Goal(disk.file).complete
            && (open.result == StoreOk ==>
                  && open.store.Some? && open.store.value.isOpen
                  && file == GoalFile(disk.file) && Goal(disk.file).complete
                  && Holds(file, Goal(disk.file).history) && Mirrors(open.store.value, Goal(disk.file).history))
            && (open.result != StoreOk ==>
                  && open.result in {Fatal, Killed}
                  && (open.store.None? ==> file == disk.file || file == ValidPart(disk.file))
                  && (open.store.Some? ==>
                        && Recovers(file, PublishedBy(open.store.value))
                        && open.store.value.fault == (if open.result == Fatal then WalFault else NoFault)))
  {
    hide Replay, HistoryOk, Settle, Reconcile, Repair, RegistryOk;
    ValidPartHolds(disk.file);
    GoalOfValidPart(disk.file);
    var h := Replay(disk.file).value.history;
    RepairOutcome(disk);
    var repaired := Repair(disk);
    if now >= 0 && read == IoOk && repaired.0 == IoOk {
      RecoveredMirrors(h, now);
      ReconcileSettles(Recovered(h, now), h, repaired.1, 0, now);
      assert Holds(repaired.1.file, h);
    }
  }

  datatype Attempt = Attempt(now: i64, read: IoStatus, script: seq<Io>)

  function StartOnce(file: bytes, attempt: Attempt): Opening {
    OpenExisting(Disk(file, attempt.script), attempt.now, attempt.read)
  }

  /** The file after a series of startups, each interrupted wherever its script says. */
  function StartRepeatedly(file: bytes, attempts: seq<Attempt>): bytes {
    if attempts == [] then file
    else StartOnce(StartRepeatedly(file, attempts[..|attempts| - 1]), attempts[|attempts| - 1]).disk.file
  }

  lemma {:induction false} GoalSurvivesRestarts(file: bytes, attempts: seq<Attempt>)
    requires Replay(file).Ok?
    ensures HistoryOk(Replay(file).value.history)
    ensures var left := StartRepeatedly(file, attempts);
            && Replay(left).Ok? && HistoryOk(Replay(left).value.history)
            && GoalFile(left) == GoalFile(file)
            && Goal(left).history == Goal(file).history && Goal(left).complete == Goal(file).complete
    decreases |attempts|
  {
    hide Replay, HistoryOk, Settle, OpenExisting;
    ValidPartHolds(file);
    if attempts != [] {
      var n := |attempts| - 1;
      GoalSurvivesRestarts(file, attempts[..n]);
      var last := attempts[n];
      OpenOutcome(Disk(StartRepeatedly(file, attempts[..n]), last.script), last.now, last.read);
    }
  }

  /** Confluence: however often startup is interrupted, and wherever, the attempt that
      finally succeeds publishes the same jobs and leaves the same log bytes as a
      startup that was never interrupted, at any clock reading. */
  lemma StartupIsConfluent(file: bytes, attempts: seq<Attempt>, last: Attempt)
    requires Replay(file).Ok? && StartOnce(StartRepeatedly(file, attempts), last).result == StoreOk
    ensures HistoryOk(Replay(file).value.history) && Goal(file).complete
    ensures var open := StartOnce(StartRepeatedly(file, attempts), last);
            && open.disk.file == GoalFile(file)
            && open.store.Some? && PublishedBy(open.store.value) == PublishedIn(Goal(file).history)
    ensures forall direct :: StartOnce(file, direct).result == StoreOk ==>
              var open := StartOnce(StartRepeatedly(file, attempts), last);
              var clean := StartOnce(file, direct);
              && clean.disk.file == open.disk.file
              && clean.store.Some? && open.store.Some?
              && PublishedBy(clean.store.value) == PublishedBy(open.store.value)
  {
    hide Replay, HistoryOk, Settle, OpenExisting, RegistryOk;
    GoalSurvivesRestarts(file, attempts);
    OpenOutcome(Disk(StartRepeatedly(file, attempts), last.script), last.now, last.read);
    forall direct: Attempt | StartOnce(file, direct).result == StoreOk
      ensures StartOnce(file, direct).disk.file == GoalFile(file)
      ensures StartOnce(file, direct).store.Some?
      ensures PublishedBy(StartOnce(file, direct).store.value) == PublishedIn(Goal(file).history)
    {
      OpenOutcome(Disk(file, direct.script), direct.now, direct.read);
    }
  }

  // ---------- a startup that succeeds ----------

  /** A benign environment: every call completes, one byte at a time. */
  function Ones(n: nat): (script: seq<Io>)
    ensures |script| == n
  {
    seq(n, _ => Completed(1))
  }

  lemma OnesNext(n: nat)
    requires n > 0
    ensures Ones(n)[0] == Completed(1) && Ones(n)[1..] == Ones(n - 1)
  {}

  lemma {:induction false} WriteOnes(file: bytes, data: bytes, n: nat)
    requires |data| <= n
    ensures WriteAll(Disk(file, Ones(n)), data) == (IoOk, Disk(file + data, Ones(n - |data|)))
    decreases |data|
  {
    hide Ones;
    if data == [] {
      assert file + data == file;
    } else {
      OnesNext(n);
      WriteOnes(file + data[..1], data[1..], n - 1);
      assert file + data[..1] + data[1..] == file + data;
    }
  }

  lemma AppendOnes(writer: Writer, file: bytes, record: Record, n: nat)
    requires writer.state == WriterReady && writer.nextSequence == record.sequence != 0
    requires EncodeRecord(record).Ok? && |EncodeRecord(record).value| < n
    ensures var wire := EncodeRecord(record).value;
            var out := Append(writer, Disk(file, Ones(n)), record);
            out.result == WriteOk && out.disk == Disk(file + wire, Ones(n - |wire| - 1))
  {
    hide EncodeRecord, Ones, WriteAll;
    var wire := EncodeRecord(record).value;
    WriteOnes(file, wire, n);
    OnesNext(n - |wire|);
  }

  /** Given enough calls that complete, reconciliation succeeds. */
  lemma {:induction false} ReconcileOnes(store: Store, h: History, file: bytes, i: nat, now: i64, n: nat)
    requires AtStartup(store, h, now) && Holds(file, h) && Settle(h, i).complete
    requires |Settle(h, i).log| + ActiveFrom(h.scheduler.jobs, i) <= n
    ensures Reconcile(store, Disk(file, Ones(n)), i, now).result == StoreOk
    decreases |h.scheduler.jobs| - i
  {
    hide HistoryOk, PlanLoss, EncodeRecord, Apply, Lost, Sound, RegistryOk, Append, Ones, Holds, LossRecord;
    assert |h.scheduler.jobs| <= STORE_CAPACITY by { HistorySchedulerOk(h); }
    if i < |store.jobs.jobs| {
      if !IsActive(store.jobs.jobs[i]) {
        ReconcileOnes(store, h, file, i + 1, now, n);
      } else {
        var next := AfterLoss(h, i);
        LossPlan(store, h, i, now);
        LossRecordApplies(h, i);
        var plan := PlanLoss(store, store.jobs.jobs[i].workerId, now);
        var wire := EncodeRecord(plan.record).value;
        LossNumber(h, i);
        ActiveFrame(h.scheduler.jobs, next.scheduler.jobs, i + 1);
        AppendOnes(store.wal, file, plan.record, n);
        CarryCommits(store, h, Disk(file, Ones(n)), plan);
        SoundMirrors(store, h, plan);
        var step := Carry(store, Disk(file, Ones(n)), plan);
        ReconcileOnes(step.store.(interrupted := step.store.interrupted + 1), next, file + wire, i + 1, now,
            n - |wire| - 1);
      }
    }
  }

  lemma LossNumber(h: History, i: nat)
    requires Unsettled(h, i)
    ensures LossRecord(h, i).sequence == h.lastSequence + 1
  {}

  lemma RepairOnes(file: bytes, n: nat)
    requires Replay(file).Ok? && n >= 3
    ensures var out := Repair(Disk(file, Ones(n)));
            out.0 == IoOk && out.1.file == ValidPart(file) && exists m :: n - 3 <= m && out.1.script == Ones(m)
  {
    hide Replay, Ones;
    OnesNext(n);
    OnesNext(n - 1);
    OnesNext(n - 2);
    if Replay(file).value.tail == 0 {
      assert ValidPart(file) == file;
      assert Repair(Disk(file, Ones(n))).1.script == Ones(n - 2);
    } else {
      assert Repair(Disk(file, Ones(n))).1.script == Ones(n - 3);
    }
  }

  /** Exactly when a startup can succeed: the clock is not negative and the log has a
      sequence number left for every attempt to be settled.  Nothing else can stand in
      the way for good. */
  lemma StartupCanSucceed(file: bytes, now: i64)
    requires Replay(file).Ok?
    ensures (exists attempt: Attempt :: attempt.now == now && StartOnce(file, attempt).result == StoreOk)
            <==> now >= 0 && NumbersSuffice(Replay(file).value.history)
  {
    hide Replay, HistoryOk, Settle, OpenExisting, NumbersSuffice;
    var h := Replay(file).value.history;
    ValidPartHolds(file);
    if attempt: Attempt :| attempt.now == now && StartOnce(file, attempt).result == StoreOk {
      OpenOutcome(Disk(file, attempt.script), now, attempt.read);
      ClockRan(Disk(file, attempt.script), now, attempt.read);
      SufficientToSettle(h);
    }
    if now >= 0 && NumbersSuffice(h) {
      SufficientToSettle(h);
      BenignStartup(file, now);
    }
  }

  lemma ClockRan(disk: Disk, now: i64, read: IoStatus)
    requires OpenExisting(disk, now, read).result == StoreOk
    ensures now >= 0
  {}

  lemma SufficientToSettle(h: History)
    requires HistoryOk(h)
    ensures NumbersSuffice(h) <==> Settle(h, 0).complete
  {
    SettleCompletes(h, 0);
  }

  lemma BenignStartup(file: bytes, now: i64)
    requires Replay(file).Ok? && HistoryOk(Replay(file).value.history) && now >= 0
        && Settle(Replay(file).value.history, 0).complete
    ensures exists attempt: Attempt :: attempt.now == now && StartOnce(file, attempt).result == StoreOk
  {
    hide Replay, HistoryOk, Settle, Reconcile, Repair, Ones, RegistryOk;
    var h := Replay(file).value.history;
    var n := 3 + |Settle(h, 0).log| + ActiveFrom(h.scheduler.jobs, 0);
    RepairOnes(file, n);
    var m :| n - 3 <= m && Repair(Disk(file, Ones(n))).1.script == Ones(m);
    ValidPartHolds(file);
    RecoveredMirrors(h, now);
    ReconcileOnes(Recovered(h, now), h, ValidPart(file), 0, now, m);
    assert Repair(Disk(file, Ones(n))).1 == Disk(ValidPart(file), Ones(m));
    assert StartOnce(file, Attempt(now, IoOk, Ones(n))).result == StoreOk;
  }
}
