/** Replaying a whole log file (src/coordinator/wal_replay.c, `read_history`). */
module ReplayModel {
  import opened Base
  import opened JobModel
  import opened SchedulerModel
  import opened WalFormat
  import opened WalCodec
  import opened HistoryModel

  /** The history after the complete records, and how many bytes of an incomplete
      last record follow them. */
  datatype Replayed = Replayed(history: History, tail: nat)

  function ReplayLog(h: History, log: bytes): (out: Result<Replayed, ReplayError>)
    ensures out.Ok? ==> out.value.tail <= |log|
    decreases |log|
  {
    hide DecodeRecord, Apply;
    if log == [] then Ok(Replayed(h, 0))
    else if h.lastSequence == U64_MAX then Err(BadFormat(InvalidSequence))
    else
      var read := DecodeRecord(log, h.lastSequence + 1);
      if read == Err(Incomplete) then Ok(Replayed(h, |log|))
      else if read.Err? then Err(BadFormat(read.error))
      else
        var next := Apply(h, read.value.record);
        if next.Err? then Err(next.error)
        else ReplayLog(next.value, log[read.value.consumed..])
  }

  function Replay(file: bytes): (out: Result<Replayed, ReplayError>)
    ensures out.Ok? ==> FILE_HEADER_SIZE <= |file| && out.value.tail <= |file| - FILE_HEADER_SIZE
  {
    var header := DecodeFileHeader(file);
    if header.Some? then Err(BadFormat(header.value)) else ReplayLog(EmptyHistory(), file[FILE_HEADER_SIZE..])
  }

  /** What survives of a file after replay: everything but the incomplete tail. */
  function ValidPart(file: bytes): bytes
    requires Replay(file).Ok?
  {
    file[..|file| - Replay(file).value.tail]
  }

  // ---------- composing logs ----------

  /** A decoded record does not depend on what follows it. */
  lemma DecodeIgnoresRest(log: bytes, expected: u64, more: bytes)
    requires DecodeRecord(log, expected).Ok?
    ensures DecodeRecord(log + more, expected) == DecodeRecord(log, expected)
  {
    hide DecodeRecord, EncodeRecord;
    var read := DecodeRecord(log, expected).value;
    RecordCanonical(log, expected, read);
    var wire := log[..read.consumed];
    RecordDecodes(read.record, wire, log[read.consumed..] + more);
    assert wire + (log[read.consumed..] + more) == log + more;
  }

  /** Replaying a complete log and then more is replaying both at once. */
  lemma {:induction false} ReplayAppend(h: History, log: bytes, more: bytes)
    requires ReplayLog(h, log).Ok? && ReplayLog(h, log).value.tail == 0
    ensures ReplayLog(h, log + more) == ReplayLog(ReplayLog(h, log).value.history, more)
    decreases |log|
  {
    hide DecodeRecord, EncodeRecord, Apply;
    if log == [] {
      assert log + more == more;
    } else {
      var read := DecodeRecord(log, h.lastSequence + 1).value;
      RecordCanonical(log, h.lastSequence + 1, read);
      DecodeIgnoresRest(log, h.lastSequence + 1, more);
      assert (log + more)[read.consumed..] == log[read.consumed..] + more;
      ReplayAppend(Apply(h, read.record).value, log[read.consumed..], more);
    }
  }

  /** Dropping the incomplete tail changes nothing. */
  lemma {:induction false} ReplayDropsTail(h: History, log: bytes)
    requires ReplayLog(h, log).Ok?
    ensures var out := ReplayLog(h, log).value;
            ReplayLog(h, log[..|log| - out.tail]) == Ok(Replayed(out.history, 0))
    decreases |log|
  {
    hide DecodeRecord, EncodeRecord, Apply;
    var out := ReplayLog(h, log).value;
    if log != [] && DecodeRecord(log, h.lastSequence + 1).Ok? {
      var read := DecodeRecord(log, h.lastSequence + 1).value;
      RecordCanonical(log, h.lastSequence + 1, read);
      var rest := log[read.consumed..];
      ReplayDropsTail(Apply(h, read.record).value, rest);
      var cut := log[..|log| - out.tail];
      assert cut[..read.consumed] == log[..read.consumed];
      RecordDecodes(read.record, log[..read.consumed], cut[read.consumed..]);
      assert log[..read.consumed] + cut[read.consumed..] == cut;
      assert cut[read.consumed..] == rest[..|rest| - out.tail];
    }
  }

  /** One complete record, and one torn record. */
  lemma ReplayRecord(h: History, record: Record, wire: bytes)
    requires EncodeRecord(record) == Ok(wire) && h.lastSequence < U64_MAX && record.sequence == h.lastSequence + 1
    ensures Apply(h, record).Ok? ==> ReplayLog(h, wire) == Ok(Replayed(Apply(h, record).value, 0))
    ensures forall k :: 0 <= k < |wire| ==> ReplayLog(h, wire[..k]) == Ok(Replayed(h, k))
  {
    hide DecodeRecord, EncodeRecord, Apply;
    RecordDecodes(record, wire, []);
    assert wire + [] == wire;
    RecordCanonical(wire, record.sequence, Decoded(record, |wire|));
    assert wire[|wire|..] == [];
    forall k | 0 <= k < |wire| ensures ReplayLog(h, wire[..k]) == Ok(Replayed(h, k)) {
      PrefixIncomplete(record, wire, k);
    }
  }

  // ---------- soundness ----------

  /** The bytes of consecutive records. */
  predicate Encodes(records: seq<Record>, log: bytes)
    decreases |records|
  {
    if records == [] then log == []
    else
      var wire := EncodeRecord(records[0]);
      wire.Ok? && |wire.value| <= |log| && wire.value == log[..|wire.value|]
          && Encodes(records[1..], log[|wire.value|..])
  }

  /** Applying records one after the other, numbered without a gap. */
  function ApplyAll(h: History, records: seq<Record>): Result<History, ReplayError>
    decreases |records|
  {
    if records == [] then Ok(h)
    else if records[0].sequence != h.lastSequence + 1 then Err(BadFormat(InvalidSequence))
    else
      var next := Apply(h, records[0]);
      if next.Err? then next else ApplyAll(next.value, records[1..])
  }

  /** The records a log is made of. */
  function RecordsOf(h: History, log: bytes): (records: seq<Record>)
    requires ReplayLog(h, log).Ok?
    decreases |log|
  {
    hide DecodeRecord, EncodeRecord, Apply;
    if log == [] then []
    else
      var read := DecodeRecord(log, h.lastSequence + 1);
      if read.Err? then []
      else
        RecordCanonical(log, h.lastSequence + 1, read.value);
        [read.value.record] + RecordsOf(Apply(h, read.value.record).value, log[read.value.consumed..])
  }

  /** The tail is empty or the beginning of a record that never became complete. */
  predicate TornTail(h: History, tail: bytes) {
    tail == [] || (h.lastSequence < U64_MAX && DecodeRecord(tail, h.lastSequence + 1) == Err(Incomplete))
  }

  lemma {:induction false} ReplayKeepsOk(h: History, log: bytes)
    requires HistoryOk(h) && ReplayLog(h, log).Ok?
    ensures HistoryOk(ReplayLog(h, log).value.history)
    decreases |log|
  {
    hide DecodeRecord, EncodeRecord, Apply, ValidPayload, HistoryOk;
    if log != [] && DecodeRecord(log, h.lastSequence + 1).Ok? {
      var read := DecodeRecord(log, h.lastSequence + 1).value;
      RecordCanonical(log, h.lastSequence + 1, read);
      EncodedIsValid(read.record);
      ApplyKeepsOk(h, read.record);
      ReplayKeepsOk(Apply(h, read.record).value, log[read.consumed..]);
    }
  }

  lemma {:induction false} RecordsEncodeLog(h: History, log: bytes)
    requires ReplayLog(h, log).Ok?
    ensures Encodes(RecordsOf(h, log), log[..|log| - ReplayLog(h, log).value.tail])
    decreases |log|
  {
    hide DecodeRecord, EncodeRecord, Apply;
    if log != [] && DecodeRecord(log, h.lastSequence + 1).Ok? {
      var cut := |log| - ReplayLog(h, log).value.tail;
      var read := DecodeRecord(log, h.lastSequence + 1).value;
      RecordCanonical(log, h.lastSequence + 1, read);
      var rest := log[read.consumed..];
      RecordsEncodeLog(Apply(h, read.record).value, rest);
      assert log[..cut][..read.consumed] == log[..read.consumed];
      assert log[..cut][read.consumed..] == rest[..cut - read.consumed];
    }
  }

  lemma {:induction false} RecordsApplyInOrder(h: History, log: bytes)
    requires ReplayLog(h, log).Ok?
    ensures ApplyAll(h, RecordsOf(h, log)) == Ok(ReplayLog(h, log).value.history)
    decreases |log|
  {
    hide DecodeRecord, EncodeRecord, Apply;
    if log != [] && DecodeRecord(log, h.lastSequence + 1).Ok? {
      var read := DecodeRecord(log, h.lastSequence + 1).value;
      RecordCanonical(log, h.lastSequence + 1, read);
      RecordsApplyInOrder(Apply(h, read.record).value, log[read.consumed..]);
    }
  }

  lemma {:induction false} TailIsTorn(h: History, log: bytes)
    requires ReplayLog(h, log).Ok?
    ensures var out := ReplayLog(h, log).value; TornTail(out.history, log[|log| - out.tail..])
    decreases |log|
  {
    hide DecodeRecord, EncodeRecord, Apply;
    var out := ReplayLog(h, log).value;
    if log != [] && DecodeRecord(log, h.lastSequence + 1).Ok? {
      var read := DecodeRecord(log, h.lastSequence + 1).value;
      RecordCanonical(log, h.lastSequence + 1, read);
      var rest := log[read.consumed..];
      TailIsTorn(Apply(h, read.record).value, rest);
      assert log[|log| - out.tail..] == rest[|rest| - out.tail..];
    }
  }

  lemma EncodedIsValid(record: Record)
    requires EncodeRecord(record).Ok?
    ensures ValidPayload(record) && record.sequence != 0
  {}

  /** Replay soundness: an accepted file is a valid header, a contiguous run of
      encoded records, each one legal after those before it, and at most one
      incomplete tail; and the recovered state satisfies the full invariant. */
  lemma AcceptedFile(file: bytes)
    requires Replay(file).Ok?
    ensures var out := Replay(file).value;
            var log := file[FILE_HEADER_SIZE..];
            var records := RecordsOf(EmptyHistory(), log);
            && file[..FILE_HEADER_SIZE] == FileHeader()
            && HistoryOk(out.history)
            && Encodes(records, log[..|log| - out.tail])
            && ApplyAll(EmptyHistory(), records) == Ok(out.history)
            && TornTail(out.history, log[|log| - out.tail..])
  {
    hide ReplayLog, FileHeader, DecodeFileHeader, HistoryOk, RecordsOf, Encodes, ApplyAll, TornTail;
    var log := file[FILE_HEADER_SIZE..];
    FileHeaderCanonical(file);
    EmptyHistoryOk();
    ReplayKeepsOk(EmptyHistory(), log);
    RecordsEncodeLog(EmptyHistory(), log);
    RecordsApplyInOrder(EmptyHistory(), log);
    TailIsTorn(EmptyHistory(), log);
  }
}
