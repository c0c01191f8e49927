/** Opening an existing log: replay, repair of the tail, and reconciliation of the
    attempts that were interrupted (`faultline_store_open_with_io`,
    `recover_interrupted_jobs`, and the end of `faultline_wal_replay_open_with_io`). */
module StartupModel {
  import opened Base
  import opened JobModel
  import opened SchedulerModel
  import opened RegistryModel
  import opened WalFormat
  import opened WriterModel
  import opened HistoryModel
  import opened ReplayModel
  import opened StoreModel

  /** `ftruncate`, retried while interrupted. */
  function Truncate(disk: Disk, size: nat): (out: (IoStatus, Disk))
    requires size <= |disk.file|
    decreases |disk.script|
  {
    if disk.script == [] then (IoKilled, disk)
    else
      var after := Disk(disk.file, disk.script[1..]);
      match disk.script[0]
      case Interrupted => Truncate(after, size)
      case IoFailed => (IoError, after)
      case Completed(_) => (IoOk, Disk(disk.file[..size], after.script))
  }

  /** Cut an incomplete tail, then sync the file and its directory. */
  function Repair(disk: Disk): (out: (IoStatus, Disk))
    requires Replay(disk.file).Ok?
  {
    var tail := Replay(disk.file).value.tail;
    var cut := if tail == 0 then (IoOk, disk) else Truncate(disk, |disk.file| - tail);
    if cut.0 != IoOk then cut
    else
      var synced := Sync(cut.1);
      if synced.0 != IoOk then synced else Sync(synced.1)
  }

  /** The store a replayed history gives, before reconciliation. */
  function Recovered(h: History, now: i64): Store {
    Store(h.scheduler, EmptyRegistry(h.nextWorkerId),
          Writer(WriterReady, Succ64(h.lastSequence), h.lastSequence),
          NoFault, false, h.timeBase, now, h.timeBase, 0)
  }

  /** `recover_interrupted_jobs` from slot `i` on. */
  function Reconcile(store: Store, disk: Disk, i: nat, now: i64): Step
    decreases STORE_CAPACITY - i
  {
    if i >= |store.jobs.jobs| || i >= STORE_CAPACITY then Step(StoreOk, store, disk)
    else if !IsActive(store.jobs.jobs[i]) then Reconcile(store, disk, i + 1, now)
    else
      var step := Carry(store, disk, PlanLoss(store, store.jobs.jobs[i].workerId, now));
      if step.result == Killed then step
      else if step.result != StoreOk then step.(result := Fatal)
      else Reconcile(step.store.(interrupted := step.store.interrupted + 1), step.disk, i + 1, now)
  }

  /** The outcome of a startup; there is a store only if replay published one. */
  datatype Opening = Opening(result: StoreResult, store: Option<Store>, disk: Disk)

  function NotOpened(io: IoStatus, disk: Disk): Opening {
    Opening(if io == IoKilled then Killed else Fatal, None, disk)
  }

  /** `read` is how reading the file ended; short reads make no difference to it. */
  function OpenExisting(disk: Disk, now: i64, read: IoStatus): Opening {
    if now < 0 then Opening(Fatal, None, disk)
    else if read != IoOk then NotOpened(read, disk)
    else
      var replay := Replay(disk.file);
      if replay.Err? then Opening(Fatal, None, disk)
      else
        var repaired := Repair(disk);
        if repaired.0 != IoOk then NotOpened(repaired.0, repaired.1)
        else
          var step := Reconcile(Recovered(replay.value.history, now), repaired.1, 0, now);
          if step.result == StoreOk then Opening(StoreOk, Some(step.store.(isOpen := true)), step.disk)
          else Opening(step.result, Some(step.store), step.disk)
  }

  /** `faultline_wal_writer_create_with_io` for a new file: header, then two syncs. */
  function CreateNew(script: seq<Io>, now: i64): Opening {
    var empty := Disk([], script);
    if now < 0 then Opening(Fatal, None, empty)
    else
      var written := WriteAll(empty, FileHeader());
      if written.0 != IoOk then NotOpened(written.0, written.1)
      else
        var synced := Sync(written.1);
        if synced.0 != IoOk then NotOpened(synced.0, synced.1)
        else
          var named := Sync(synced.1);
          if named.0 != IoOk then NotOpened(named.0, named.1)
          else Opening(StoreOk, Some(Recovered(EmptyHistory(), now).(isOpen := true)), named.1)
  }
}
