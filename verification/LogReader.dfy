/** Replay that reads the log piece by piece (src/coordinator/wal_replay.c), building a
    candidate state in place. */
module LogReaders {
  import opened Base
  import opened Bytes
  import opened Crc
  import opened JobModel
  import opened SchedulerModel
  import opened RegistryModel
  import opened WalFormat
  import opened WalCodec
  import opened HistoryModel
  import opened ReplayModel
  import opened WriterModel
  import opened StartupModel
  import opened WorkerIndexes
  import opened JobRecords
  import opened JobQueues
  import opened JobStores
  import opened WorkerRegistries
  import opened LogWriters

  // ---------- decoding only what has been read ----------

  lemma FieldOfPrefix(layout: Layout, wire: bytes, n: nat, k: nat)
    requires k < |layout| && LayoutSize(layout) <= n <= |wire|
    ensures Field(layout, wire[..n], k) == Field(layout, wire, k)
  {
    OffsetMonotone(layout, k + 1, |layout|);
    assert wire[..n][Offset(layout, k)..Offset(layout, k + 1)] == wire[Offset(layout, k)..Offset(layout, k + 1)];
  }

  lemma FileHeaderOfPrefix(file: bytes, n: nat)
    requires n <= |file| && (n == FILE_HEADER_SIZE || (n == |file| && n < FILE_HEADER_SIZE))
    ensures DecodeFileHeader(file[..n]) == DecodeFileHeader(file)
  {
    hide Field, LayoutSize, FileLayout, Sealed;
    if n == FILE_HEADER_SIZE {
      FileLayoutFacts();
      var layout := FileLayout();
      assert file[..n][..FILE_HEADER_SIZE] == file[..FILE_HEADER_SIZE];
      forall k | 0 <= k < |layout| ensures Field(layout, file[..n], k) == Field(layout, file, k) {
        FieldOfPrefix(layout, file, n, k);
      }
    }
  }

  lemma HeaderOfPrefix(log: bytes, n: nat, expected: u64)
    requires RECORD_HEADER_SIZE <= n <= |log|
    ensures DecodeHeader(log[..n], expected) == DecodeHeader(log, expected)
  {
    hide Field, LayoutSize, HeaderLayout, Sealed, TypeOf, LengthInBounds;
    HeaderLayoutFacts();
    var layout := HeaderLayout();
    assert log[..n][..RECORD_HEADER_SIZE] == log[..RECORD_HEADER_SIZE];
    forall k | 0 <= k < |layout| ensures Field(layout, log[..n], k) == Field(layout, log, k) {
      FieldOfPrefix(layout, log, n, k);
    }
  }

  /** A record is decoded from its own bytes exactly as from the rest of the file. */
  lemma RecordOfPrefix(log: bytes, expected: u64)
    requires DecodeHeader(log, expected).Ok?
    requires RECORD_HEADER_SIZE + DecodeHeader(log, expected).value.length <= |log|
    ensures var size := RECORD_HEADER_SIZE + DecodeHeader(log, expected).value.length;
            DecodeRecord(log[..size], expected) == DecodeRecord(log, expected)
  {
    hide DecodeHeader, EncodeHeader, DecodePayload, Checksum, LengthInBounds;
    var size := RECORD_HEADER_SIZE + DecodeHeader(log, expected).value.length;
    HeaderOfPrefix(log, size, expected);
    assert log[..size][RECORD_HEADER_SIZE..size] == log[RECORD_HEADER_SIZE..size];
  }

  lemma HeaderDecides(log: bytes, expected: u64)
    requires expected != 0
    ensures |log| >= RECORD_HEADER_SIZE ==> DecodeHeader(log, expected) != Err(Incomplete)
    ensures |log| < RECORD_HEADER_SIZE ==> DecodeRecord(log, expected) == Err(Incomplete)
    ensures DecodeHeader(log, expected).Err? ==> DecodeRecord(log, expected) == Err(DecodeHeader(log, expected).error)
    ensures DecodeHeader(log, expected).Ok? && |log| < RECORD_HEADER_SIZE + DecodeHeader(log, expected).value.length
            ==> DecodeRecord(log, expected) == Err(Incomplete)
  {
    hide Field, LayoutSize, HeaderLayout, Sealed, TypeOf, LengthInBounds, DecodePayload, Checksum;
  }

  // ---------- the replay state ----------

  class ReplayState {
    const jobs: JobStore
    const workers: WorkerRegistry
    const index: WorkerIndex
    var lastSequence: u64
    var highestJobId: u64
    var highestWorkerId: u32
    var timeBase: i64
    ghost var issued: set<u32>

    ghost function Repr(): set<object> {
      {this, index, jobs, jobs.jobs, jobs.pending, jobs.pending.ids, workers, workers.workers}
    }

    ghost predicate Valid()
      reads this, index, jobs, jobs.jobs, jobs.pending, jobs.pending.ids, workers, workers.workers
    {
      && jobs.Valid() && workers.Valid() && workers.Value() == EmptyRegistry(workers.nextWorkerId)
      && Represents(index.ranges, issued)
      && forall id :: id in issued ==> id <= highestWorkerId
    }

    ghost function Value(): History
      requires Valid()
      reads this, index, jobs, jobs.jobs, jobs.pending, jobs.pending.ids, workers, workers.workers
    {
      History(jobs.Value(), workers.nextWorkerId, lastSequence, highestJobId, highestWorkerId, timeBase, issued)
    }

    constructor ()
      ensures Valid() && Value() == EmptyHistory() && fresh(Repr())
    {
      jobs := new JobStore();
      workers := new WorkerRegistry();
      index := new WorkerIndex();
      lastSequence, highestJobId, highestWorkerId, timeBase := 0, 0, 0, 0;
      issued := {};
    }

    /** `allocate_worker`. */
    method AllocateWorker(id: u32) returns (error: Option<ReplayError>)
      requires Valid()
      modifies Repr()
      ensures Valid()
      ensures id <= old(highestWorkerId) ==> error == Some(BadHistory(BadAllocation)) && Value() == old(Value())
      ensures id > old(highestWorkerId) ==>
                && error == None
                && Value() == old(Value()).(nextWorkerId := Succ32(id), highestWorkerId := id,
                    issued := old(issued) + {id})
    {
      hide JobStore.Valid, JobStore.Value, Represents, EmptyRegistry;
      if id <= highestWorkerId {
        return Some(BadHistory(BadAllocation));
      }
      index.Add(id, issued);
      issued := issued + {id};
      highestWorkerId := id;
      workers.nextWorkerId := Succ32(id);
      SameSlots(workers.Value(), old(workers.nextWorkerId));
      error := None;
    }

    /** The switch of `apply_record`: the transition a snapshot claims, on a copy of
        the record held so far. */
    method DeriveNext(kind: Kind, saved: Job, held: Job) returns (candidate: Result<Job, ReplayError>)
      requires Valid() && kind != JobCreated && saved.updatedAt >= timeBase
      requires var s := jobs.Value().jobs; var slot := FindSlot(s, saved.id); slot < |s| && s[slot] == held
      ensures candidate == Candidate(Value(), kind, saved)
    {
      hide Represents, EmptyRegistry, FindSlot, ActiveSlot,
           JobModel.Assign, JobModel.Start, JobModel.Complete, JobModel.Fail;
      var record := new JobRecord.Copy(held);
      var failed;
      if kind == JobAssigned {
        var known := index.Contains(saved.workerId, issued);
        if !known {
          return Err(BadHistory(UnknownWorker));
        }
        var busy := jobs.Active(saved.workerId);
        if busy < jobs.count {
          return Err(BadHistory(BusyWorker));
        }
        var head := jobs.pending.Peek();
        if head != Some(saved.id) {
          return Err(BadHistory(BadFifo));
        }
        failed := record.Assign(saved.workerId, saved.updatedAt);
      } else if kind == JobStarted {
        failed := record.Start(saved.workerId, saved.attempt, saved.updatedAt);
      } else if kind == JobCompleted {
        failed := record.Complete(saved.workerId, saved.attempt, saved.result, saved.updatedAt);
      } else {
        failed := record.Fail(record.job.workerId, saved.attempt, saved.failure, saved.updatedAt);
      }
      candidate := if failed.Some? then Err(BadHistory(BadTransition)) else Ok(record.job);
    }

    /** The candidate record of `apply_record`: the snapshot re-derived by the job model. */
    method Derive(kind: Kind, saved: Job) returns (candidate: Result<Job, ReplayError>, slot: nat)
      requires Valid()
      ensures candidate == Candidate(Value(), kind, saved)
      ensures slot == FindSlot(Value().scheduler.jobs, saved.id)
    {
      hide Represents, EmptyRegistry, FindSlot, ActiveSlot,
           JobModel.Init, JobModel.Assign, JobModel.Start, JobModel.Complete, JobModel.Fail;
      slot := jobs.Locate(saved.id);
      if saved.updatedAt < timeBase {
        return Err(BadHistory(BadTime)), slot;
      }
      if kind == JobCreated {
        if saved.id <= highestJobId {
          return Err(BadHistory(BadAllocation)), slot;
        }
        if jobs.count == STORE_CAPACITY {
          return Err(Capacity), slot;
        }
        var record := new JobRecord.Blank();
        var failed := record.Init(saved.id, saved.taskType, saved.arguments, saved.maxRetries, saved.createdAt);
        candidate := if failed.Some? then Err(BadHistory(BadTransition)) else Ok(record.job);
      } else if slot == jobs.count {
        candidate := Err(BadHistory(UnknownJob));
      } else {
        candidate := DeriveNext(kind, saved, jobs.jobs[slot]);
      }
    }

    /** The end of `apply_record`: queue, record, counters and time, in that order. */
    method Publish(kind: Kind, candidate: Job, slot: nat, ghost sequence: u64) returns (error: Option<ReplayError>)
      requires Valid() && slot == FindSlot(jobs.Value().jobs, candidate.id)
      requires Candidate(Value(), kind, candidate) == Ok(candidate)
      requires kind == JobCreated ==> slot == jobs.count < STORE_CAPACITY
      modifies Repr()
      ensures Valid()
      ensures Follows(old(Value()), ApplySnapshot(old(Value()), kind, sequence, candidate), error, Value())
    {
      hide Represents, EmptyRegistry, FindSlot, Candidate, JobStore.Valid, JobStore.Value, SchedulerModel.Push;
      QueueHead(Value(), kind, candidate);
      var ok := jobs.Requeue(kind == JobAssigned, candidate);
      if !ok {
        return Some(BadHistory(BadFifo));
      }
      jobs.Put(slot, candidate);
      if kind == JobCreated {
        highestJobId := candidate.id;
      }
      timeBase := candidate.updatedAt;
      error := None;
    }

    /** `matches_snapshot`: the candidate is compared as canonical bytes. */
    static method MatchesSnapshot(candidate: Job, kind: Kind, sequence: u64, wire: bytes) returns (matches: bool)
      ensures matches <==> EncodeRecord(JobSnapshot(kind, sequence, candidate)) == Ok(wire)
    {
      hide EncodeRecord;
      matches := EncodeRecord(JobSnapshot(kind, sequence, candidate)) == Ok(wire);
    }

    /** `apply_record` for a record and the bytes it was decoded from. */
    method ApplyRecord(record: Record, wire: bytes) returns (error: Option<ReplayError>)
      requires Valid() && HistoryOk(Value()) && EncodeRecord(record) == Ok(wire)
      modifies Repr()
      ensures Valid()
      ensures Follows(old(Value()), Apply(old(Value()), record), error, Value())
    {
      hide HistoryOk, EncodeRecord, FindSlot, Candidate, JobStore.Valid, JobStore.Value, Represents, EmptyRegistry;
      if record.WorkerAllocated? {
        error := AllocateWorker(record.workerId);
        return;
      }
      var saved := record.job;
      var candidate, slot := Derive(record.kind, saved);
      if candidate.Err? {
        return Some(candidate.error);
      }
      var matches := MatchesSnapshot(candidate.value, record.kind, record.sequence, wire);
      WalCodec.MatchesSnapshot(record.kind, record.sequence, saved, candidate.value, wire);
      if !matches {
        return Some(BadHistory(BadSnapshot));
      }
      NewSlot(Value(), record.kind, saved);
      error := Publish(record.kind, candidate.value, slot, record.sequence);
    }

    /** `read_history`: if the file can be read, the outcome is that of replaying its
        bytes; the tail of an incomplete record is reported and not applied. */
    method ReadHistory(writer: LogWriter) returns (status: IoStatus, outcome: Result<nat, ReplayError>)
      requires Valid() && Value() == EmptyHistory() && writer.storage.position == 0
      requires Repr() !! writer.Repr()
      modifies Repr(), writer.Repr()
      ensures Valid()
      ensures writer.storage.file == old(writer.storage.file)
      ensures Later(old(writer.storage.script), writer.storage.script)
      ensures writer.Value() == AfterStatus(status, old(writer.Value()))
      ensures status == IoOk ==>
                match Replay(writer.storage.file)
                case Ok(replayed) => outcome == Ok(replayed.tail) && Value() == replayed.history
                case Err(e) => outcome == Err(e)
    {
      hide DecodeFileHeader, ReplayLog, HistoryOk, Later, ReadSoFar, JobStore.Valid, JobStore.Value, Represents,
           EmptyRegistry;
      ghost var file, script := writer.storage.file, writer.storage.script;
      outcome := Err(Capacity);
      var head;
      status, head := writer.ReadExact(FILE_HEADER_SIZE);
      if status != IoOk {
        return;
      }
      var format := DecodeFileHeader(head);
      HeaderRead(file, writer.storage.position, head);
      if format.Some? {
        return IoOk, Err(BadFormat(format.value));
      }
      EmptyHistoryOk();
      var more := true;
      while more
        invariant Valid() && HistoryOk(Value()) && status == IoOk
        invariant writer.storage.file == file && writer.storage.position <= |file|
        invariant Later(script, writer.storage.script) && writer.Value() == old(writer.Value())
        invariant more ==> Replay(file) == ReplayLog(Value(), file[writer.storage.position..])
        invariant !more ==> match Replay(file)
                            case Ok(replayed) => outcome == Ok(replayed.tail) && Value() == replayed.history
                            case Err(e) => outcome == Err(e)
        decreases more, |file| - writer.storage.position
      {
        ghost var before := writer.storage.script;
        status, more, outcome := ReadRecord(writer);
        LaterTransitive(script, before, writer.storage.script);
        if status != IoOk {
          return;
        }
      }
    }

    /** One round of the loop of `read_history`. */
    method ReadRecord(writer: LogWriter) returns (status: IoStatus, more: bool, outcome: Result<nat, ReplayError>)
      requires Valid() && HistoryOk(Value()) && writer.storage.position <= |writer.storage.file|
      requires Repr() !! writer.Repr()
      modifies Repr(), writer.Repr()
      ensures Valid()
      ensures writer.storage.file == old(writer.storage.file) && writer.storage.position <= |writer.storage.file|
      ensures Later(old(writer.storage.script), writer.storage.script)
      ensures writer.Value() == AfterStatus(status, old(writer.Value()))
      ensures var file := writer.storage.file;
              var replay := ReplayLog(old(Value()), file[old(writer.storage.position)..]);
              status == IoOk ==>
                && HistoryOk(Value())
                && (more ==> writer.storage.position > old(writer.storage.position)
                             && replay == ReplayLog(Value(), file[writer.storage.position..]))
                && (!more ==> match replay
                              case Ok(replayed) => outcome == Ok(replayed.tail) && Value() == replayed.history
                              case Err(e) => outcome == Err(e))
    {
      hide NextPiece, HistoryOk, Later, JobStore.Valid, JobStore.Value, Represents, EmptyRegistry, ReplayLog,
           EncodeRecord;
      ghost var start := writer.storage.position;
      ghost var log := writer.storage.file[start..];
      more, outcome := false, Err(Capacity);
      var piece;
      status, piece := Fetch(writer, lastSequence);
      if status != IoOk {
        return;
      }
      ReplayPiece(Value(), log);
      match piece {
        case EndOfLog => outcome := Ok(0);
        case Torn(size) => outcome := Ok(size);
        case Unreadable(e) => outcome := Err(BadFormat(e));
        case Whole(record, wire) =>
          KeepsOk(Value(), record, wire);
          var error := ApplyRecord(record, wire);
          if error.Some? {
            outcome := Err(error.value);
          } else {
            lastSequence := record.sequence;
            more := true;
            assert log[|wire|..] == writer.storage.file[writer.storage.position..];
          }
      }
    }
  }

  /** What the next bytes of a log turn out to be. */
  datatype Piece = EndOfLog | Torn(size: nat) | Unreadable(error: WalError) | Whole(record: Record, wire: bytes)

  ghost function NextPiece(log: bytes, last: u64): Piece {
    hide DecodeRecord, EncodeRecord;
    if log == [] then EndOfLog
    else if last == U64_MAX then Unreadable(InvalidSequence)
    else
      var read := DecodeRecord(log, last + 1);
      if read == Err(Incomplete) then Torn(|log|)
      else if read.Err? then Unreadable(read.error)
      else
        RecordCanonical(log, last + 1, read.value);
        Whole(read.value.record, log[..read.value.consumed])
  }

  /** Reading one record: its header, then as many bytes as the header announces. */
  method Fetch(writer: LogWriter, last: u64) returns (status: IoStatus, piece: Piece)
    requires writer.storage.position <= |writer.storage.file|
    modifies writer.Repr()
    ensures writer.storage.file == old(writer.storage.file)
    ensures old(writer.storage.position) <= writer.storage.position <= |writer.storage.file|
    ensures Later(old(writer.storage.script), writer.storage.script)
    ensures writer.Value() == AfterStatus(status, old(writer.Value()))
    ensures status == IoOk ==>
              && piece == NextPiece(writer.storage.file[old(writer.storage.position)..], last)
              && (piece.Whole? ==> writer.storage.position == old(writer.storage.position) + |piece.wire|)
  {
    hide DecodeHeader, DecodeRecord, NextPiece, Later, ReadSoFar;
    ghost var file, start, script := writer.storage.file, writer.storage.position, writer.storage.script;
    piece := EndOfLog;
    var head;
    status, head := writer.ReadExact(RECORD_HEADER_SIZE);
    if status != IoOk {
      return;
    }
    ghost var log := file[start..];
    HeadRead(file, start, writer.storage.position, head, last);
    if head == [] {
      return IoOk, EndOfLog;
    }
    if last == U64_MAX {
      return IoOk, Unreadable(InvalidSequence);
    }
    if |head| < RECORD_HEADER_SIZE {
      return IoOk, Torn(|head|);
    }
    var header := DecodeHeader(head, last + 1);
    if header.Err? {
      return IoOk, Unreadable(header.error);
    }
    ghost var middle, between := writer.storage.position, writer.storage.script;
    var payload;
    status, payload := writer.ReadExact(header.value.length);
    LaterTransitive(script, between, writer.storage.script);
    if status != IoOk {
      return;
    }
    ReadMore(file, start, middle, writer.storage.position, head, payload);
    BodyRead(file, start, writer.storage.position, head, payload, last);
    if |payload| < header.value.length {
      return IoOk, Torn(RECORD_HEADER_SIZE + |payload|);
    }
    var wire := head + payload;
    var read := DecodeRecord(wire, last + 1);
    if read.Err? {
      return IoOk, Unreadable(read.error);
    }
    piece := Whole(read.value.record, wire);
  }

  lemma HeadRead(file: bytes, start: nat, position: nat, head: bytes, last: u64)
    requires ReadSoFar(file, start, position, head)
    requires |head| <= RECORD_HEADER_SIZE && (|head| < RECORD_HEADER_SIZE ==> position == |file|)
    ensures var log := file[start..];
            && (head == [] ==> NextPiece(log, last) == EndOfLog)
            && (head != [] && last == U64_MAX ==> NextPiece(log, last) == Unreadable(InvalidSequence))
            && (head != [] && last < U64_MAX && |head| < RECORD_HEADER_SIZE ==> NextPiece(log, last) == Torn(|head|))
            && (last < U64_MAX && |head| == RECORD_HEADER_SIZE ==>
                  && DecodeHeader(head, last + 1) == DecodeHeader(log, last + 1)
                  && (DecodeHeader(head, last + 1).Err? ==>
                        NextPiece(log, last) == Unreadable(DecodeHeader(head, last + 1).error)))
  {
    hide DecodeHeader, DecodeRecord;
    var log := file[start..];
    assert head == log[..|head|];
    if head != [] && last < U64_MAX {
      HeaderDecides(log, last + 1);
      if |head| == RECORD_HEADER_SIZE {
        HeaderOfPrefix(log, |head|, last + 1);
      } else {
        assert log == head;
      }
    }
  }

  lemma BodyRead(file: bytes, start: nat, position: nat, head: bytes, payload: bytes, last: u64)
    requires ReadSoFar(file, start, position, head + payload) && last < U64_MAX
    requires |head| == RECORD_HEADER_SIZE && DecodeHeader(head, last + 1).Ok?
    requires var length := DecodeHeader(head, last + 1).value.length;
             |payload| <= length && (|payload| < length ==> position == |file|)
    ensures var length := DecodeHeader(head, last + 1).value.length;
            var read := DecodeRecord(head + payload, last + 1);
            NextPiece(file[start..], last) ==
              if |payload| < length then Torn(RECORD_HEADER_SIZE + |payload|)
              else if read.Err? then Unreadable(read.error)
              else Whole(read.value.record, head + payload)
  {
    hide DecodeHeader, DecodeRecord;
    var log, wire := file[start..], head + payload;
    assert wire == log[..|wire|];
    assert head == log[..RECORD_HEADER_SIZE];
    HeaderOfPrefix(log, RECORD_HEADER_SIZE, last + 1);
    HeaderDecides(log, last + 1);
    if |payload| < DecodeHeader(head, last + 1).value.length {
      assert log == wire;
    } else {
      RecordOfPrefix(log, last + 1);
      ConsumedIsSize(log, last + 1);
    }
  }

  lemma ConsumedIsSize(log: bytes, expected: u64)
    requires DecodeHeader(log, expected).Ok? && |log| >= RECORD_HEADER_SIZE + DecodeHeader(log, expected).value.length
    ensures DecodeRecord(log, expected) != Err(Incomplete)
    ensures DecodeRecord(log, expected).Ok? ==>
              DecodeRecord(log, expected).value.consumed
                  == RECORD_HEADER_SIZE + DecodeHeader(log, expected).value.length
  {
    hide DecodeHeader, Checksum;
  }

  /** The replay of a log that starts with this piece. */
  ghost function ReplayFrom(h: History, log: bytes, piece: Piece): Result<Replayed, ReplayError>
    requires piece.Whole? ==> |piece.wire| <= |log|
  {
    match piece
    case EndOfLog => Ok(Replayed(h, 0))
    case Torn(size) => Ok(Replayed(h, size))
    case Unreadable(e) => Err(BadFormat(e))
    case Whole(record, wire) =>
      if Apply(h, record).Err? then Err(Apply(h, record).error)
      else ReplayLog(Apply(h, record).value, log[|wire|..])
  }

  /** One step of replay, by what comes next in the log. */
  lemma ReplayPiece(h: History, log: bytes)
    ensures NextPiece(log, h.lastSequence).Whole? ==>
              var piece := NextPiece(log, h.lastSequence);
              && 0 < |piece.wire| <= |log| && EncodeRecord(piece.record) == Ok(piece.wire)
              && piece.record.sequence != 0
    ensures ReplayLog(h, log) == ReplayFrom(h, log, NextPiece(log, h.lastSequence))
  {
    hide DecodeRecord, EncodeRecord, Apply;
    if log != [] && h.lastSequence < U64_MAX && DecodeRecord(log, h.lastSequence + 1).Ok? {
      RecordCanonical(log, h.lastSequence + 1, DecodeRecord(log, h.lastSequence + 1).value);
    }
  }

  lemma KeepsOk(h: History, record: Record, wire: bytes)
    requires HistoryOk(h) && EncodeRecord(record) == Ok(wire)
    ensures Apply(h, record).Ok? ==>
              HistoryOk(Apply(h, record).value) && Apply(h, record).value.lastSequence == record.sequence
  {
    hide HistoryOk, Apply, ValidPayload;
    EncodedIsValid(record);
    if Apply(h, record).Ok? {
      ApplyKeepsOk(h, record);
    }
  }

  /** What opening an existing log does, given how reading it ended and what is left of
      the script then. */
  ghost function Opened(file: bytes, rest: seq<Io>, read: IoStatus): (IoStatus, Disk) {
    if read != IoOk then (read, Disk(file, rest))
    else if Replay(file).Err? then (IoError, Disk(file, rest))
    else Repair(Disk(file, rest))
  }

  /** Cut the incomplete tail, if any, then sync the file and its directory. */
  method RepairLog(writer: LogWriter, tail: nat) returns (status: IoStatus)
    requires Replay(writer.storage.file).Ok? && tail == Replay(writer.storage.file).value.tail
    modifies writer.Repr()
    ensures (status, writer.storage.Contents()) == Repair(old(writer.storage.Contents()))
    ensures writer.Value() == AfterStatus(status, old(writer.Value()))
  {
    hide Replay, WriterModel.Sync, Truncate;
    if tail != 0 {
      status := writer.TruncateTo(|writer.storage.file| - tail);
      if status != IoOk {
        return;
      }
    }
    status := writer.Sync();
    if status != IoOk {
      return;
    }
    status := writer.Sync();
  }

  /** Replay into a candidate state, then repair the file. */
  method LoadLog(writer: LogWriter)
    returns (status: IoStatus, candidate: ReplayState, ghost read: IoStatus, ghost rest: seq<Io>)
    requires writer.storage.position == 0
    modifies writer.Repr()
    ensures candidate.Valid() && fresh(candidate.Repr())
    ensures Later(old(writer.storage.script), rest)
    ensures (status, writer.storage.Contents()) == Opened(old(writer.storage.file), rest, read)
    ensures status == IoOk ==>
              Replay(old(writer.storage.file)).Ok?
                  && candidate.Value() == Replay(old(writer.storage.file)).value.history
    ensures status == IoError ==> writer.state == WriterFailed
  {
    hide Replay, Repair, Later, ReplayState.Valid, ReplayState.Value;
    candidate := new ReplayState();
    var outcome;
    status, outcome := candidate.ReadHistory(writer);
    read, rest := status, writer.storage.script;
    if status != IoOk {
      return;
    }
    if outcome.Err? {
      writer.state := WriterFailed;
      status := IoError;
      return;
    }
    status := RepairLog(writer, outcome.value);
  }

  /** The replay, repair and publication of `faultline_wal_replay_open_with_io`.  The
      caller's jobs and workers change only when everything succeeded. */
  method OpenLog(writer: LogWriter, jobs: JobStore, workers: WorkerRegistry)
    returns (status: IoStatus, timeBase: i64, ghost read: IoStatus, ghost rest: seq<Io>)
    requires writer.storage.position == 0
    requires jobs.Valid() && workers.Valid()
    modifies writer.Repr(), jobs.Repr(), workers.Repr()
    ensures jobs.Valid() && workers.Valid()
    ensures Later(old(writer.storage.script), rest)
    ensures (status, writer.storage.Contents()) == Opened(old(writer.storage.file), rest, read)
    ensures status == IoOk ==>
              var history := Replay(old(writer.storage.file)).value.history;
              && jobs.Value() == history.scheduler && workers.Value() == EmptyRegistry(history.nextWorkerId)
              && timeBase == history.timeBase
              && writer.Value() == Writer(WriterReady, Succ64(history.lastSequence), history.lastSequence)
    ensures status != IoOk ==> jobs.Value() == old(jobs.Value()) && workers.Value() == old(workers.Value())
    ensures status == IoError ==> writer.state == WriterFailed
  {
    hide Opened, Replay, Later, JobStore.Valid, JobStore.Value, WorkerRegistry.Value, EmptyRegistry, Represents;
    var candidate;
    status, candidate, read, rest := LoadLog(writer);
    timeBase := candidate.timeBase;
    if status != IoOk {
      return;
    }
    PublishReplay(candidate, writer, jobs, workers);
  }

  /** `*state = *candidate`, and the writer continues behind the last record. */
  method PublishReplay(candidate: ReplayState, writer: LogWriter, jobs: JobStore, workers: WorkerRegistry)
    requires candidate.Valid() && jobs.Valid() && workers.Valid()
    requires jobs.Apart(candidate.jobs) && workers.Repr() !! candidate.workers.Repr()
    modifies writer, jobs.Repr(), workers.Repr()
    ensures jobs.Valid() && workers.Valid()
    ensures var history := old(candidate.Value());
            && jobs.Value() == history.scheduler && workers.Value() == EmptyRegistry(history.nextWorkerId)
            && writer.Value() == Writer(WriterReady, Succ64(history.lastSequence), history.lastSequence)
  {
    hide JobStore.Valid, JobStore.Value, WorkerRegistry.Valid, WorkerRegistry.Value, EmptyRegistry, Represents;
    jobs.CopyFrom(candidate.jobs);
    workers.CopyFrom(candidate.workers);
    writer.syncedSequence := candidate.lastSequence;
    writer.nextSequence := Succ64(candidate.lastSequence);
    writer.state := WriterReady;
  }

  lemma NewSlot(h: History, kind: Kind, job: Job)
    requires HistoryOk(h) && Candidate(h, kind, job).Ok?
    ensures kind == JobCreated ==> FindSlot(h.scheduler.jobs, job.id) == |h.scheduler.jobs| < STORE_CAPACITY
  {
    hide FindSlot, ActiveSlot;
    IdsBelow(h);
  }

  lemma HeaderRead(file: bytes, position: nat, head: bytes)
    requires ReadSoFar(file, 0, position, head)
    requires |head| <= FILE_HEADER_SIZE && (|head| < FILE_HEADER_SIZE ==> position == |file|)
    ensures DecodeFileHeader(head) == DecodeFileHeader(file)
    ensures DecodeFileHeader(file).None? ==> position == FILE_HEADER_SIZE
  {
    hide Field, LayoutSize, FileLayout, Sealed;
    FileHeaderOfPrefix(file, position);
  }

  /** What `apply_record` reports and leaves; the sequence number advances later. */
  ghost predicate Follows(before: History, applied: Result<History, ReplayError>, error: Option<ReplayError>,
      after: History) {
    match applied
    case Ok(h) => error == None && after == h.(lastSequence := before.lastSequence)
    case Err(e) => error == Some(e) && after == before
  }

  lemma QueueHead(h: History, kind: Kind, job: Job)
    requires Candidate(h, kind, job).Ok?
    ensures kind == JobAssigned ==> h.scheduler.pending != [] && h.scheduler.pending[0] == job.id
    ensures kind != JobCreated ==> FindSlot(h.scheduler.jobs, job.id) < |h.scheduler.jobs|
  {
    hide FindSlot, ActiveSlot;
  }

  lemma SameSlots(registry: Registry, before: u32)
    requires registry.workers == EmptyRegistry(before).workers
    ensures registry == EmptyRegistry(registry.nextWorkerId)
  {}
}
