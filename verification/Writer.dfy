/** Appending to the log (src/coordinator/wal_writer.c) over storage whose behaviour
    the environment chooses.

    Every I/O call consumes one entry of a script: it is interrupted, fails, or
    completes with a byte count.  A script that runs out stands for the process
    being killed inside the call.  Statements about all scripts are therefore
    statements about all partial writes, failed syncs and crash points. */
module WriterModel {
  import opened Base
  import opened WalFormat

  datatype Io = Interrupted | IoFailed | Completed(count: nat)

  datatype IoStatus = IoOk | IoError | IoKilled

  datatype Disk = Disk(file: bytes, script: seq<Io>)

  datatype WriterState = WriterClosed | WriterReady | WriterFailed | WriterRecovering

  datatype Writer = Writer(state: WriterState, nextSequence: u64, syncedSequence: u64)

  datatype WriteResult =
    | WriteOk | WriteInvalidState | WriteInvalidRecord | WriteSequenceExhausted | WriteIoError | WriteKilled

  /** `write_all`: interrupted calls are retried, short counts continue, and a count
      that is zero or too large is a failure. */
  function WriteAll(disk: Disk, data: bytes): (out: (IoStatus, Disk))
    decreases |disk.script|
  {
    if data == [] then (IoOk, disk)
    else if disk.script == [] then (IoKilled, disk)
    else
      var rest := disk.script[1..];
      match disk.script[0]
      case Interrupted => WriteAll(Disk(disk.file, rest), data)
      case IoFailed => (IoError, Disk(disk.file, rest))
      case Completed(n) =>
        if n == 0 then (IoError, Disk(disk.file, rest))
        else if n > |data| then (IoError, Disk(disk.file + data, rest))
        else WriteAll(Disk(disk.file + data[..n], rest), data[n..])
  }

  /** `faultline_wal_writer_sync`. */
  function Sync(disk: Disk): (out: (IoStatus, Disk))
    decreases |disk.script|
  {
    if disk.script == [] then (IoKilled, disk)
    else
      var after := Disk(disk.file, disk.script[1..]);
      match disk.script[0]
      case Interrupted => Sync(after)
      case IoFailed => (IoError, after)
      case Completed(_) => (IoOk, after)
  }

  datatype Appended = Appended(result: WriteResult, writer: Writer, disk: Disk)

  /** What `io` makes of the writer: errors latch it, a killed process has none. */
  function AfterIo(writer: Writer, io: (IoStatus, Disk)): Appended
    requires io.0 != IoOk
  {
    if io.0 == IoError then Appended(WriteIoError, writer.(state := WriterFailed), io.1)
    else Appended(WriteKilled, writer, io.1)
  }

  /** `faultline_wal_writer_append`. */
  function Append(writer: Writer, disk: Disk, record: Record): Appended {
    if writer.state == WriterFailed then Appended(WriteIoError, writer, disk)
    else if writer.state != WriterReady then Appended(WriteInvalidState, writer, disk)
    else if writer.nextSequence == 0 then Appended(WriteSequenceExhausted, writer, disk)
    else if record.sequence != writer.nextSequence then Appended(WriteInvalidRecord, writer, disk)
    else
      var wire := EncodeRecord(record);
      if wire.Err? then Appended(WriteInvalidRecord, writer, disk)
      else
        var written := WriteAll(disk, wire.value);
        if written.0 != IoOk then AfterIo(writer, written)
        else
          var synced := Sync(written.1);
          if synced.0 != IoOk then AfterIo(writer, synced)
          else Appended(WriteOk, writer.(syncedSequence := record.sequence,
                                         nextSequence := Succ64(record.sequence)), synced.1)
  }

  // ---------- what any environment can do ----------

  /** Some prefix of the data reaches the file; all of it when the call succeeds. */
  lemma {:induction false} WriteAllPrefix(disk: Disk, data: bytes)
    ensures var out := WriteAll(disk, data);
            exists k :: 0 <= k <= |data| && out.1.file == disk.file + data[..k] && (out.0 == IoOk ==> k == |data|)
    decreases |disk.script|
  {
    var out := WriteAll(disk, data);
    if data == [] {
      assert out.1.file == disk.file + data[..0];
    } else if disk.script == [] {
      assert out.1.file == disk.file + data[..0];
    } else {
      var rest := disk.script[1..];
      match disk.script[0] {
        case Interrupted => WriteAllPrefix(Disk(disk.file, rest), data);
        case IoFailed => assert out.1.file == disk.file + data[..0];
        case Completed(n) =>
          if n == 0 {
            assert out.1.file == disk.file + data[..0];
          } else if n > |data| {
            assert data[..|data|] == data;
          } else {
            WriteAllPrefix(Disk(disk.file + data[..n], rest), data[n..]);
            var k :| 0 <= k <= |data[n..]| && out.1.file == disk.file + data[..n] + data[n..][..k]
                     && (out.0 == IoOk ==> k == |data[n..]|);
            assert data[..n] + data[n..][..k] == data[..n + k];
            assert out.1.file == disk.file + data[..n + k];
          }
      }
    }
  }

  lemma {:induction false} SyncKeepsFile(disk: Disk)
    ensures Sync(disk).1.file == disk.file
    decreases |disk.script|
  {
    if disk.script != [] && disk.script[0].Interrupted? {
      SyncKeepsFile(Disk(disk.file, disk.script[1..]));
    }
  }

  /** An append that was attempted leaves some prefix of the encoded record at the
      end of the file, the whole record when it reports success, and never a
      writer that would write again after anything but success. */
  lemma AppendOutcome(writer: Writer, disk: Disk, record: Record, wire: bytes)
    requires writer.state == WriterReady && writer.nextSequence == record.sequence != 0
    requires EncodeRecord(record) == Ok(wire)
    ensures var out := Append(writer, disk, record);
            && out.result in {WriteOk, WriteIoError, WriteKilled}
            && (exists k :: 0 <= k <= |wire| && out.disk.file == disk.file + wire[..k]
                            && (out.result == WriteOk ==> k == |wire|))
            && (out.result == WriteOk ==> out.writer == Writer(WriterReady, Succ64(record.sequence), record.sequence))
            && (out.result == WriteIoError ==> out.writer.state == WriterFailed)
  {
    hide EncodeRecord, WriteAll, Sync;
    WriteAllPrefix(disk, wire);
    SyncKeepsFile(WriteAll(disk, wire).1);
  }

  /** A latched writer performs no further I/O. */
  lemma LatchedWriterIsSilent(writer: Writer, disk: Disk, record: Record)
    requires writer.state != WriterReady || writer.nextSequence == 0
    ensures Append(writer, disk, record).disk == disk && Append(writer, disk, record).result != WriteOk
  {}
}
