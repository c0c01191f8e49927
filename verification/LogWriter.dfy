/** The log writer that src/coordinator/wal_writer.c updates in place, over storage
    that answers one system call at a time. */
module LogWriters {
  import opened Base
  import opened WalFormat
  import opened WriterModel
  import StartupModel

  /** What one system call returns; `Ended` stands for a process killed in the call. */
  datatype Reply = Ended | Retry | Refused | Count(count: nat)

  function ReplyTo(io: Io): Reply {
    match io
    case Interrupted => Retry
    case IoFailed => Refused
    case Completed(n) => Count(n)
  }

  class Storage {
    var file: bytes
    var script: seq<Io>
    var position: nat

    constructor (disk: Disk)
      ensures Contents() == disk && position == 0
    {
      file := disk.file;
      script := disk.script;
      position := 0;
    }

    function Contents(): Disk
      reads this
    {
      Disk(file, script)
    }

    /** The next entry of the script, as the reply every call starts from. */
    method Next() returns (reply: Reply)
      modifies this
      ensures file == old(file) && position == old(position)
      ensures old(script) == [] ==> reply == Ended && script == []
      ensures old(script) != [] ==>
                && script == old(script)[1..]
                && reply == ReplyTo(old(script)[0])
    {
      if script == [] {
        return Ended;
      }
      reply := ReplyTo(script[0]);
      script := script[1..];
    }

    /** `write`: some prefix reaches the file.  A count beyond the data is reported
        although no more than the data can be written. */
    method Write(data: bytes) returns (reply: Reply)
      modifies this
      ensures position == old(position)
      ensures old(script) == [] ==> reply == Ended && Contents() == old(Contents())
      ensures old(script) != [] ==>
                && script == old(script)[1..]
                && (match old(script)[0]
                    case Interrupted => reply == Retry && file == old(file)
                    case IoFailed => reply == Refused && file == old(file)
                    case Completed(n) =>
                      reply == Count(n) && file == old(file) + (if n > |data| then data else data[..n]))
    {
      reply := Next();
      if reply.Count? {
        file := file + (if reply.count > |data| then data else data[..reply.count]);
      }
    }

    /** `read` of up to `size` bytes at the current position.  Zero means the end of
        the file; a count beyond `size` breaks the contract of the call. */
    method Read(size: nat) returns (reply: Reply, data: bytes)
      requires 0 < size && position <= |file|
      modifies this
      ensures file == old(file) && old(position) <= position <= |file|
      ensures !reply.Count? || reply.count > size ==> position == old(position)
      ensures |script| < |old(script)| || reply == Ended
      ensures Later(old(script), script)
      ensures reply.Count? && reply.count <= size ==>
                && position == old(position) + reply.count
                && ReadSoFar(file, old(position), position, data) && |data| == reply.count
                && (reply.count == 0 <==> old(position) == |file|)
    {
      ghost var before := script;
      reply := Next();
      data := [];
      LaterNext(before);
      if reply.Count? {
        if position == |file| {
          reply := Count(0);
        } else if reply.count <= size {
          var wanted := if reply.count == 0 then 1 else reply.count;
          var count := if wanted > |file| - position then |file| - position else wanted;
          data := file[position..position + count];
          position := position + count;
          reply := Count(count);
        }
      }
    }

    /** `ftruncate`. */
    method Truncate(size: nat) returns (reply: Reply)
      requires size <= |file|
      modifies this
      ensures position == old(position)
      ensures old(script) == [] ==> reply == Ended && Contents() == old(Contents())
      ensures old(script) != [] ==>
                && script == old(script)[1..]
                && (match old(script)[0]
                    case Interrupted => reply == Retry && file == old(file)
                    case IoFailed => reply == Refused && file == old(file)
                    case Completed(n) => reply == Count(n) && file == old(file)[..size])
    {
      reply := Next();
      if reply.Count? {
        file := file[..size];
      }
    }
  }

  /** `after` is what is left of `before` once some calls have been answered. */
  ghost predicate Later(before: seq<Io>, after: seq<Io>) {
    |after| <= |before| && after == before[|before| - |after|..]
  }

  lemma LaterNext(script: seq<Io>)
    ensures Later(script, script)
    ensures script != [] ==> Later(script, script[1..])
  {}

  lemma LaterTransitive(a: seq<Io>, b: seq<Io>, c: seq<Io>)
    requires Later(a, b) && Later(b, c)
    ensures Later(a, c)
  {}

  /** `data` is what the file holds between the two positions. */
  ghost predicate ReadSoFar(file: bytes, i: nat, j: nat, data: bytes) {
    i <= j <= |file| && data == file[i..j]
  }

  lemma ReadMore(file: bytes, i: nat, j: nat, k: nat, data: bytes, more: bytes)
    requires ReadSoFar(file, i, j, data) && ReadSoFar(file, j, k, more)
    ensures ReadSoFar(file, i, k, data + more)
  {}

  lemma NothingRead(file: bytes, i: nat)
    requires i <= |file|
    ensures ReadSoFar(file, i, i, [])
  {}

  /** An I/O error latches the writer. */
  function AfterStatus(status: IoStatus, writer: Writer): Writer {
    if status == IoError then writer.(state := WriterFailed) else writer
  }

  class LogWriter {
    const storage: Storage
    var state: WriterState
    var nextSequence: u64
    var syncedSequence: u64

    ghost function Repr(): set<object> {
      {this, storage}
    }

    function Value(): Writer
      reads this
    {
      Writer(state, nextSequence, syncedSequence)
    }

    /** An opened file that has been neither created nor replayed. */
    constructor (storage: Storage)
      ensures this.storage == storage && Value() == Writer(WriterRecovering, 0, 0)
    {
      this.storage := storage;
      state := WriterRecovering;
      nextSequence := 0;
      syncedSequence := 0;
    }

    /** `write_all`. */
    method WriteAll(data: bytes) returns (status: IoStatus)
      modifies Repr()
      ensures (status, storage.Contents()) == WriterModel.WriteAll(old(storage.Contents()), data)
      ensures Value() == AfterStatus(status, old(Value()))
      ensures storage.position == old(storage.position)
    {
      var offset: nat := 0;
      assert data[0..] == data;
      while offset < |data|
        invariant offset <= |data|
        invariant Value() == old(Value()) && storage.position == old(storage.position)
        invariant WriterModel.WriteAll(storage.Contents(), data[offset..])
               == WriterModel.WriteAll(old(storage.Contents()), data)
        decreases |storage.script|
      {
        ghost var before := storage.file;
        var reply := storage.Write(data[offset..]);
        if reply == Ended {
          return IoKilled;
        }
        if reply == Refused || (reply.Count? && (reply.count == 0 || reply.count > |data| - offset)) {
          assert before + data[offset..][..0] == before;
          state := WriterFailed;
          return IoError;
        }
        if reply.Count? {
          assert data[offset..][reply.count..] == data[offset + reply.count..];
          offset := offset + reply.count;
        }
      }
      status := IoOk;
    }

    /** `faultline_wal_writer_sync`. */
    method Sync() returns (status: IoStatus)
      modifies Repr()
      ensures (status, storage.Contents()) == WriterModel.Sync(old(storage.Contents()))
      ensures Value() == AfterStatus(status, old(Value()))
      ensures storage.position == old(storage.position)
    {
      while true
        invariant Value() == old(Value()) && storage.position == old(storage.position)
        invariant WriterModel.Sync(storage.Contents()) == WriterModel.Sync(old(storage.Contents()))
        decreases |storage.script|
      {
        var reply := storage.Next();
        if reply == Ended {
          return IoKilled;
        }
        if reply.Count? {
          return IoOk;
        }
        if reply == Refused {
          state := WriterFailed;
          return IoError;
        }
      }
    }

    /** `read_exact`: the next `size` bytes, or fewer where the file ends.  Short reads
        are progress; only a zero count is the end of the file. */
    method ReadExact(size: nat) returns (status: IoStatus, data: bytes)
      requires storage.position <= |storage.file|
      modifies Repr()
      ensures storage.file == old(storage.file) && old(storage.position) <= storage.position <= |storage.file|
      ensures Later(old(storage.script), storage.script)
      ensures Value() == AfterStatus(status, old(Value()))
      ensures status == IoOk ==>
                && ReadSoFar(storage.file, old(storage.position), storage.position, data)
                && |data| <= size && (|data| < size ==> storage.position == |storage.file|)
    {
      hide Later, ReadSoFar;
      data := [];
      LaterNext(storage.script);
      NothingRead(storage.file, storage.position);
      var atEnd := false;
      while |data| < size && !atEnd
        invariant storage.file == old(storage.file) && old(storage.position) <= storage.position <= |storage.file|
        invariant ReadSoFar(storage.file, old(storage.position), storage.position, data) && |data| <= size
        invariant atEnd ==> storage.position == |storage.file|
        invariant Later(old(storage.script), storage.script) && Value() == old(Value())
        decreases |storage.script|
      {
        ghost var script, from := storage.script, storage.position;
        var more;
        status, atEnd, more := ReadSome(size - |data|);
        LaterTransitive(old(storage.script), script, storage.script);
        if status != IoOk {
          return status, [];
        }
        ReadMore(storage.file, old(storage.position), from, storage.position, data, more);
        data := data + more;
      }
      status := IoOk;
    }

    /** One round of `read_exact`; an interrupted call gives no data. */
    method ReadSome(size: nat) returns (status: IoStatus, atEnd: bool, more: bytes)
      requires 0 < size && storage.position <= |storage.file|
      modifies Repr()
      ensures storage.file == old(storage.file) && storage.position <= |storage.file|
      ensures Later(old(storage.script), storage.script)
      ensures status == IoOk ==> |storage.script| < |old(storage.script)|
      ensures Value() == AfterStatus(status, old(Value()))
      ensures status == IoOk ==>
                && ReadSoFar(storage.file, old(storage.position), storage.position, more) && |more| <= size
                && (atEnd ==> storage.position == |storage.file|)
      ensures old(storage.position) <= storage.position
    {
      hide Later, ReadSoFar;
      var reply;
      reply, more := storage.Read(size);
      if reply == Ended {
        return IoKilled, false, [];
      }
      if reply == Refused || (reply.Count? && reply.count > size) {
        state := WriterFailed;
        return IoError, false, [];
      }
      if reply == Retry {
        NothingRead(storage.file, storage.position);
        return IoOk, false, [];
      }
      status, atEnd := IoOk, reply.count == 0;
    }

    /** The truncation loop of `faultline_wal_replay_open_with_io`. */
    method TruncateTo(size: nat) returns (status: IoStatus)
      requires size <= |storage.file|
      modifies Repr()
      ensures (status, storage.Contents()) == StartupModel.Truncate(old(storage.Contents()), size)
      ensures Value() == AfterStatus(status, old(Value()))
    {
      while true
        invariant Value() == old(Value()) && size <= |storage.file|
        invariant StartupModel.Truncate(storage.Contents(), size)
            == StartupModel.Truncate(old(storage.Contents()), size)
        decreases |storage.script|
      {
        var reply := storage.Truncate(size);
        if reply == Ended {
          return IoKilled;
        }
        if reply.Count? {
          return IoOk;
        }
        if reply == Refused {
          state := WriterFailed;
          return IoError;
        }
      }
    }

    /** The writes of `faultline_wal_writer_create_with_io` into a new, empty file. */
    method Create() returns (status: IoStatus)
      requires Value() == Writer(WriterRecovering, 0, 0)
      modifies Repr()
      ensures var written := WriterModel.WriteAll(old(storage.Contents()), FileHeader());
              var synced := if written.0 == IoOk then WriterModel.Sync(written.1) else written;
              (status, storage.Contents()) == if synced.0 == IoOk then WriterModel.Sync(synced.1) else synced
      ensures Value() == match status
                         case IoOk => Writer(WriterReady, 1, 0)
                         case IoError => Writer(WriterFailed, 0, 0)
                         case IoKilled => Writer(WriterRecovering, 0, 0)
    {
      hide FileHeader, WriterModel.WriteAll, WriterModel.Sync;
      status := WriteAll(FileHeader());
      if status == IoOk {
        status := Sync();
      }
      if status == IoOk {
        status := Sync();
      }
      if status == IoOk {
        nextSequence := 1;
        state := WriterReady;
      }
    }

    /** `faultline_wal_writer_append`. */
    method Append(record: Record) returns (result: WriteResult)
      modifies Repr()
      ensures Appended(result, Value(), storage.Contents())
           == WriterModel.Append(old(Value()), old(storage.Contents()), record)
      ensures storage.position == old(storage.position)
    {
      hide EncodeRecord, WriterModel.WriteAll, WriterModel.Sync;
      if state == WriterFailed {
        return WriteIoError;
      }
      if state != WriterReady {
        return WriteInvalidState;
      }
      if nextSequence == 0 {
        return WriteSequenceExhausted;
      }
      if record.sequence != nextSequence {
        return WriteInvalidRecord;
      }
      var wire := EncodeRecord(record);
      if wire.Err? {
        return WriteInvalidRecord;
      }
      var written := WriteAll(wire.value);
      if written != IoOk {
        return if written == IoError then WriteIoError else WriteKilled;
      }
      var synced := Sync();
      if synced != IoOk {
        return if synced == IoError then WriteIoError else WriteKilled;
      }
      syncedSequence := record.sequence;
      nextSequence := Succ64(record.sequence);
      result := WriteOk;
    }
  }
}
