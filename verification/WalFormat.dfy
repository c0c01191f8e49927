/** The write-ahead log format, version 1 (src/coordinator/wal_format.c). */
module WalFormat {
  import opened Base
  import opened Bytes
  import opened Crc
  import opened JobModel

  const WAL_VERSION: nat := 1
  const FILE_HEADER_SIZE: nat := 24
  const RECORD_HEADER_SIZE: nat := 32
  const RECORD_MAGIC: nat := 0x464c5752
  const JOB_PREFIX_SIZE: nat := 84

  datatype WalError =
    | InvalidArgument | Incomplete | BadChecksum | BadMagic | UnsupportedVersion | InvalidHeader
    | UnknownRecordType | InvalidSequence | InvalidPayloadLength | InvalidPayload

  datatype Record =
    | WorkerAllocated(sequence: u64, workerId: u32)
    | JobSnapshot(kind: Kind, sequence: u64, job: Job)

  datatype RecordType = AllocationType | JobType(kind: Kind)

  // ---------- checksummed blocks ----------

  /** A block followed by its checksum. */
  function Seal(body: bytes): (wire: bytes)
    ensures |wire| == |body| + 4
  {
    body + Put(W4, Checksum(body))
  }

  predicate Sealed(wire: bytes)
    requires |wire| >= 4
  {
    Get(W4, wire[|wire| - 4..]) == Checksum(wire[..|wire| - 4])
  }

  lemma SealIsSealed(body: bytes)
    ensures Sealed(Seal(body)) && Seal(body)[..|body|] == body
  {
    var wire := Seal(body);
    assert wire[..|wire| - 4] == body;
    assert wire[|wire| - 4..] == Put(W4, Checksum(body));
    PutGet(W4, Checksum(body));
  }

  lemma SealedIsSeal(wire: bytes)
    requires |wire| >= 4 && Sealed(wire)
    ensures wire == Seal(wire[..|wire| - 4])
  {
    GetPut(W4, wire[|wire| - 4..]);
  }

  lemma DamageBreaksSeal(wire: bytes, at: nat, b: byte)
    requires |wire| >= 4 && Sealed(wire) && at < |wire| && wire[at] != b
    ensures !Sealed(wire[at := b])
  {
    var n := |wire| - 4;
    var bad := wire[at := b];
    if at < n {
      assert bad[n..] == wire[n..];
      assert bad[..n] == wire[..n][at := b];
      ByteChangesChecksum(wire[..n], at, b);
    } else {
      assert bad[..n] == wire[..n];
      assert bad[n..][at - n] != wire[n..][at - n];
      GetPut(W4, wire[n..]);
      GetPut(W4, bad[n..]);
    }
  }

  // ---------- file header ----------

  function FileLayout(): Layout { [W8, W2, W2, W4, W4] }

  /** "FLINWAL\0", the version, the header size and two reserved words. */
  function FileFields(): seq<nat> { [0x464c494e57414c00, WAL_VERSION, FILE_HEADER_SIZE, 0, 0] }

  lemma FileLayoutFacts()
    ensures LayoutSize(FileLayout()) == 20 && Fits(FileLayout(), FileFields())
  {
    assert Offset(FileLayout(), 2) == 10;
    assert Offset(FileLayout(), 4) == 16;
  }

  function FileHeader(): (wire: bytes)
    ensures |wire| == FILE_HEADER_SIZE
  {
    FileLayoutFacts();
    Seal(PutFields(FileLayout(), FileFields()))
  }

  /** `faultline_wal_file_header_decode`; `None` stands for FAULTLINE_WAL_OK. */
  function DecodeFileHeader(wire: bytes): Option<WalError> {
    if |wire| < FILE_HEADER_SIZE then Some(Incomplete)
    else if !Sealed(wire[..FILE_HEADER_SIZE]) then Some(BadChecksum)
    else
      FileLayoutFacts();
      var layout := FileLayout();
      if Field(layout, wire, 0) != 0x464c494e57414c00 then Some(BadMagic)
      else if Field(layout, wire, 1) != WAL_VERSION then Some(UnsupportedVersion)
      else if Field(layout, wire, 2) != FILE_HEADER_SIZE || Field(layout, wire, 3) != 0
          || Field(layout, wire, 4) != 0 then
        Some(InvalidHeader)
      else None
  }

  lemma FileHeaderDecodes(rest: bytes)
    ensures DecodeFileHeader(FileHeader() + rest) == None
  {
    hide Field, LayoutSize, PutFields, Seal, Sealed;
    FileLayoutFacts();
    var body := PutFields(FileLayout(), FileFields());
    var wire := FileHeader() + rest;
    assert wire[..FILE_HEADER_SIZE] == Seal(body);
    SealIsSealed(body);
    assert wire[..20] == Seal(body)[..20];
    assert wire == body + wire[20..];
    forall k | 0 <= k < 5 ensures Field(FileLayout(), wire, k) == FileFields()[k] {
      FieldOfPut(FileLayout(), FileFields(), wire[20..], k);
    }
  }

  lemma FileHeaderCanonical(wire: bytes)
    requires DecodeFileHeader(wire) == None
    ensures |wire| >= FILE_HEADER_SIZE && wire[..FILE_HEADER_SIZE] == FileHeader()
  {
    hide Field, LayoutSize, PutFields;
    FileLayoutFacts();
    var head := wire[..FILE_HEADER_SIZE];
    SealedIsSeal(head);
    assert head[..20] == wire[..20];
    PutOfFields(FileLayout(), FileFields(), wire);
  }

  // ---------- job payloads ----------

  function JobLayout(): Layout { [W8, W2, W2, W4, W8, W4, W4, W8, W8, W8, W8, W8, W2, W2, W4, W4] }

  lemma JobLayoutSize()
    ensures LayoutSize(JobLayout()) == JOB_PREFIX_SIZE && |JobLayout()| == 16
    ensures var l := JobLayout();
            && l[0] == l[4] == l[7] == l[8] == l[9] == l[10] == l[11] == W8
            && l[3] == l[5] == l[6] == l[14] == l[15] == W4
            && l[1] == l[2] == l[12] == l[13] == W2
  {
    var layout := JobLayout();
    assert Offset(layout, 2) == 10;
    assert Offset(layout, 4) == 16;
    assert Offset(layout, 6) == 28;
    assert Offset(layout, 8) == 40;
    assert Offset(layout, 10) == 56;
    assert Offset(layout, 12) == 72;
    assert Offset(layout, 14) == 76;
  }

  function StateCode(state: JobState): u16 {
    match state case Queued => 1 case Assigned => 2 case Running => 3 case Done => 4 case Failed => 5
  }

  function StateOf(code: nat): Option<JobState> {
    if code == 1 then Some(Queued) else if code == 2 then Some(Assigned)
    else if code == 3 then Some(Running) else if code == 4 then Some(Done)
    else if code == 5 then Some(Failed) else None
  }

  function FailureCode(failure: Failure): u16 {
    match failure case NoFailure => 0 case TaskFailure => 1 case WorkerLost => 2
  }

  function FailureOf(code: nat): Option<Failure> {
    if code == 0 then Some(NoFailure) else if code == 1 then Some(TaskFailure)
    else if code == 2 then Some(WorkerLost) else None
  }

  /** A signed time as the unsigned word on disk. */
  function TimeWord(t: i64): u64 {
    if t >= 0 then t else t + 0x1_0000_0000_0000_0000
  }

  /** `decode_time`: only -1 is accepted among the negative times. */
  function TimeOf(word: u64): Option<i64> {
    if word == U64_MAX then Some(TIME_UNSET) else if word <= I64_MAX then Some(word) else None
  }

  function JobFields(job: Job): (values: seq<nat>)
    ensures |values| == 16
  {
    [job.id, job.taskType, StateCode(job.state), job.workerId, job.attempt, job.retryCount, job.maxRetries,
     TimeWord(job.createdAt), TimeWord(job.updatedAt), TimeWord(job.assignedAt),
     TimeWord(job.startedAt), TimeWord(job.finishedAt),
     FailureCode(job.failure), 0, |job.arguments|, |job.result|]
  }

  function EncodeJob(job: Job): (wire: bytes)
    ensures |wire| == JOB_PREFIX_SIZE + |job.arguments| + |job.result|
  {
    JobLayoutSize();
    PutFields(JobLayout(), JobFields(job)) + job.arguments + job.result
  }

  /** The record a job prefix describes, if the enum and time words are ones the
      format knows.  Its byte strings follow the prefix. */
  function DecodeJobFields(wire: bytes, arguments: bytes, result: bytes): (job: Option<Job>)
    requires |wire| >= JOB_PREFIX_SIZE
    ensures job.Some? ==> job.value.arguments == arguments && job.value.result == result
  {
    JobLayoutSize();
    var layout := JobLayout();
    var state := StateOf(Field16(layout, wire, 2));
    var created := TimeOf(Field64(layout, wire, 7));
    var updated := TimeOf(Field64(layout, wire, 8));
    var leased := TimeOf(Field64(layout, wire, 9));
    var started := TimeOf(Field64(layout, wire, 10));
    var finished := TimeOf(Field64(layout, wire, 11));
    var failure := FailureOf(Field16(layout, wire, 12));
    if state.None? || failure.None? || created.None? || updated.None? || leased.None?
       || started.None? || finished.None? then None
    else Some(Job(Field64(layout, wire, 0), Field16(layout, wire, 1), arguments, state.value, Field32(layout, wire, 3),
                  Field64(layout, wire, 4), Field32(layout, wire, 5), Field32(layout, wire, 6),
                  created.value, updated.value, leased.value, started.value, finished.value,
                  result, failure.value))
  }

  /** `decode_job`. */
  function DecodeJob(payload: bytes, kind: Kind): Result<Job, WalError>
    requires |payload| >= JOB_PREFIX_SIZE
  {
    JobLayoutSize();
    var layout := JobLayout();
    var split := JOB_PREFIX_SIZE + Field(layout, payload, 14);
    var results := Field(layout, payload, 15);
    if Field(layout, payload, 14) > MAX_ARGUMENT_SIZE || results > MAX_RESULT_SIZE || |payload| != split + results then
      Err(InvalidPayloadLength)
    else if Field(layout, payload, 13) != 0 then Err(InvalidPayload)
    else
      var job := DecodeJobFields(payload, payload[JOB_PREFIX_SIZE..split], payload[split..]);
      if job.None? || !ValidSnapshot(kind, job.value) then Err(InvalidPayload) else Ok(job.value)
  }

  /** `wire` starts with exactly the prefix of `job`. */
  predicate HasJobFields(wire: bytes, job: Job)
    requires |wire| >= JOB_PREFIX_SIZE
  {
    JobLayoutSize();
    forall k :: 0 <= k < 16 ==> Field(JobLayout(), wire, k) == JobFields(job)[k]
  }

  predicate HasSizes(wire: bytes, job: Job)
    requires |wire| >= JOB_PREFIX_SIZE
  {
    JobLayoutSize();
    var layout := JobLayout();
    && Field(layout, wire, 13) == 0
    && Field(layout, wire, 14) == |job.arguments| && Field(layout, wire, 15) == |job.result|
  }

  predicate TimesEncodable(job: Job) {
    && job.createdAt >= -1 && job.updatedAt >= -1 && job.assignedAt >= -1
    && job.startedAt >= -1 && job.finishedAt >= -1
  }

  lemma JobFieldsFit(job: Job)
    requires |job.arguments| <= MAX_ARGUMENT_SIZE && |job.result| <= MAX_RESULT_SIZE
    ensures Fits(JobLayout(), JobFields(job))
  {}

  lemma TimeInverts(t: i64)
    requires t >= -1
    ensures TimeOf(TimeWord(t)) == Some(t)
  {}

  lemma FieldsGiveJob(wire: bytes, job: Job)
    requires |wire| >= JOB_PREFIX_SIZE && TimesEncodable(job) && HasJobFields(wire, job)
    ensures DecodeJobFields(wire, job.arguments, job.result) == Some(job)
  {
    hide Field, LayoutSize, JobLayout;
    JobLayoutSize();
    TimeInverts(job.createdAt); TimeInverts(job.updatedAt); TimeInverts(job.assignedAt);
    TimeInverts(job.startedAt); TimeInverts(job.finishedAt);
  }

  lemma JobGivesFields(wire: bytes, job: Job)
    requires |wire| >= JOB_PREFIX_SIZE
    requires DecodeJobFields(wire, job.arguments, job.result) == Some(job)
    requires HasSizes(wire, job)
    ensures HasJobFields(wire, job)
  {
    hide Field, LayoutSize, JobLayout;
    JobLayoutSize();
  }

  lemma JobDecodes(kind: Kind, job: Job)
    requires ValidSnapshot(kind, job)
    ensures DecodeJob(EncodeJob(job), kind) == Ok(job)
  {
    hide Field, LayoutSize, PutFields, JobLayout, DecodeJobFields;
    JobLayoutSize(); JobFieldsFit(job);
    var layout, wire, head := JobLayout(), EncodeJob(job), PutFields(JobLayout(), JobFields(job));
    var split := JOB_PREFIX_SIZE + |job.arguments|;
    assert wire == head + (job.arguments + job.result);
    forall k | 0 <= k < 16 ensures Field(layout, wire, k) == JobFields(job)[k] {
      FieldOfPut(layout, JobFields(job), job.arguments + job.result, k);
    }
    assert wire[JOB_PREFIX_SIZE..split] == job.arguments && wire[split..] == job.result;
    FieldsGiveJob(wire, job);
  }

  lemma JobCanonical(payload: bytes, kind: Kind, job: Job)
    requires |payload| >= JOB_PREFIX_SIZE && DecodeJob(payload, kind) == Ok(job)
    ensures ValidSnapshot(kind, job) && EncodeJob(job) == payload
  {
    hide Field, LayoutSize, PutFields, JobLayout, DecodeJobFields;
    JobLayoutSize();
    var split := JOB_PREFIX_SIZE + |job.arguments|;
    JobGivesFields(payload, job);
    PutOfFields(JobLayout(), JobFields(job), payload);
    assert payload == payload[..JOB_PREFIX_SIZE] + payload[JOB_PREFIX_SIZE..split] + payload[split..];
  }

  // ---------- record headers ----------

  function HeaderLayout(): Layout { [W4, W2, W2, W4, W4, W8, W4] }

  lemma HeaderLayoutFacts()
    ensures LayoutSize(HeaderLayout()) == 28 && |HeaderLayout()| == 7
    ensures var l := HeaderLayout();
            && l[0] == l[3] == l[4] == l[6] == W4 && l[1] == l[2] == W2 && l[5] == W8
  {
    assert Offset(HeaderLayout(), 2) == 6;
    assert Offset(HeaderLayout(), 4) == 12;
    assert Offset(HeaderLayout(), 6) == 24;
  }

  datatype Header = Header(kind: RecordType, length: u32, sequence: u64, crc: u32)

  function Tag(kind: RecordType): u16 {
    match kind
    case AllocationType => 1
    case JobType(JobCreated) => 2
    case JobType(JobAssigned) => 3
    case JobType(JobStarted) => 4
    case JobType(JobCompleted) => 5
    case JobType(JobRequeued) => 6
    case JobType(JobFailed) => 7
  }

  function TypeOf(tag: nat): Option<RecordType> {
    if tag == 1 then Some(AllocationType)
    else if tag == 2 then Some(JobType(JobCreated))
    else if tag == 3 then Some(JobType(JobAssigned))
    else if tag == 4 then Some(JobType(JobStarted))
    else if tag == 5 then Some(JobType(JobCompleted))
    else if tag == 6 then Some(JobType(JobRequeued))
    else if tag == 7 then Some(JobType(JobFailed))
    else None
  }

  /** `payload_bounds`. */
  predicate LengthInBounds(kind: RecordType, length: nat) {
    match kind
    case AllocationType => length == 4
    case JobType(k) =>
      var results := if k == JobCompleted then MAX_RESULT_SIZE else 0;
      JOB_PREFIX_SIZE <= length <= JOB_PREFIX_SIZE + MAX_ARGUMENT_SIZE + results
  }

  function HeaderFields(header: Header): (values: seq<nat>)
    ensures |values| == 7
  {
    [RECORD_MAGIC, WAL_VERSION, Tag(header.kind), header.length, 0, header.sequence, header.crc]
  }

  function EncodeHeader(header: Header): (wire: bytes)
    ensures |wire| == RECORD_HEADER_SIZE
  {
    HeaderLayoutFacts();
    Seal(PutFields(HeaderLayout(), HeaderFields(header)))
  }

  /** `faultline_wal_record_header_decode`: the checksum is verified before any
      field, so that a damaged length is never believed. */
  function DecodeHeader(wire: bytes, expected: u64): Result<Header, WalError> {
    if expected == 0 then Err(WalError.InvalidArgument)
    else if |wire| < RECORD_HEADER_SIZE then Err(Incomplete)
    else if !Sealed(wire[..RECORD_HEADER_SIZE]) then Err(BadChecksum)
    else
      HeaderLayoutFacts();
      var layout := HeaderLayout();
      if Field32(layout, wire, 0) != RECORD_MAGIC then Err(BadMagic)
      else if Field16(layout, wire, 1) != WAL_VERSION then Err(UnsupportedVersion)
      else if Field32(layout, wire, 4) != 0 then Err(InvalidHeader)
      else
        var kind := TypeOf(Field16(layout, wire, 2));
        if kind.None? then Err(UnknownRecordType)
        else if !LengthInBounds(kind.value, Field32(layout, wire, 3)) then Err(InvalidPayloadLength)
        else if Field64(layout, wire, 5) != expected then Err(InvalidSequence)
        else Ok(Header(kind.value, Field32(layout, wire, 3), expected, Field32(layout, wire, 6)))
  }

  lemma TagInverts(kind: RecordType)
    ensures TypeOf(Tag(kind)) == Some(kind)
  {}

  lemma TypeCanonical(tag: nat)
    requires TypeOf(tag).Some?
    ensures Tag(TypeOf(tag).value) == tag
  {}

  lemma HeaderFieldsFit(header: Header)
    ensures Fits(HeaderLayout(), HeaderFields(header))
  {}

  lemma HeaderDecodes(header: Header, rest: bytes)
    requires header.sequence != 0 && LengthInBounds(header.kind, header.length)
    ensures DecodeHeader(EncodeHeader(header) + rest, header.sequence) == Ok(header)
  {
    hide Field, LayoutSize, PutFields, HeaderLayout, TypeOf, Tag, Sealed;
    HeaderLayoutFacts(); HeaderFieldsFit(header); TagInverts(header.kind);
    var layout, body := HeaderLayout(), PutFields(HeaderLayout(), HeaderFields(header));
    var wire := EncodeHeader(header) + rest;
    assert wire[..RECORD_HEADER_SIZE] == Seal(body);
    SealIsSealed(body);
    assert wire == body + wire[28..];
    forall k | 0 <= k < 7 ensures Field(layout, wire, k) == HeaderFields(header)[k] {
      FieldOfPut(layout, HeaderFields(header), wire[28..], k);
    }
  }

  lemma HeaderCanonical(wire: bytes, expected: u64, header: Header)
    requires DecodeHeader(wire, expected) == Ok(header)
    ensures |wire| >= RECORD_HEADER_SIZE && wire[..RECORD_HEADER_SIZE] == EncodeHeader(header)
    ensures header.sequence == expected != 0 && LengthInBounds(header.kind, header.length)
  {
    hide Field, LayoutSize, PutFields, HeaderLayout, TypeOf, Tag, Sealed, Seal, LengthInBounds;
    HeaderLayoutFacts();
    var layout, head := HeaderLayout(), wire[..RECORD_HEADER_SIZE];
    SealedIsSeal(head);
    assert head[..28] == wire[..28];
    TypeCanonical(Field16(layout, wire, 2));
    forall k | 0 <= k < 7 ensures Field(layout, wire, k) == HeaderFields(header)[k] {}
    PutOfFields(layout, HeaderFields(header), wire);
  }

  // ---------- records ----------

  function TypeOfRecord(record: Record): RecordType {
    match record
    case WorkerAllocated(_, _) => AllocationType
    case JobSnapshot(kind, _, _) => JobType(kind)
  }

  /** The records the encoder accepts, apart from the sequence number. */
  predicate ValidPayload(record: Record) {
    match record
    case WorkerAllocated(_, id) => id != 0
    case JobSnapshot(kind, _, job) => ValidSnapshot(kind, job)
  }

  function Payload(record: Record): bytes {
    match record
    case WorkerAllocated(_, id) => Put(W4, id)
    case JobSnapshot(_, _, job) => EncodeJob(job)
  }

  lemma PayloadLength(record: Record)
    requires ValidPayload(record)
    ensures LengthInBounds(TypeOfRecord(record), |Payload(record)|)
  {}

  function HeaderFor(record: Record): Header
    requires ValidPayload(record)
  {
    PayloadLength(record);
    Header(TypeOfRecord(record), |Payload(record)|, record.sequence, Checksum(Payload(record)))
  }

  /** `faultline_wal_record_encode`. */
  function EncodeRecord(record: Record): Result<bytes, WalError> {
    if record.sequence == 0 then Err(InvalidSequence)
    else if !ValidPayload(record) then Err(InvalidPayload)
    else Ok(EncodeHeader(HeaderFor(record)) + Payload(record))
  }

  datatype Decoded = Decoded(record: Record, consumed: nat)

  function DecodePayload(header: Header, payload: bytes): Result<Record, WalError>
    requires LengthInBounds(header.kind, |payload|)
  {
    match header.kind
    case AllocationType =>
      var id: u32 := Get(W4, payload);
      if id == 0 then Err(InvalidPayload) else Ok(WorkerAllocated(header.sequence, id))
    case JobType(kind) =>
      var job := DecodeJob(payload, kind);
      if job.Err? then Err(job.error) else Ok(JobSnapshot(kind, header.sequence, job.value))
  }

  /** `faultline_wal_record_decode`. */
  function DecodeRecord(wire: bytes, expected: u64): (out: Result<Decoded, WalError>)
    ensures out.Ok? ==> RECORD_HEADER_SIZE <= out.value.consumed <= |wire|
  {
    var header := DecodeHeader(wire, expected);
    if header.Err? then Err(header.error)
    else
      HeaderCanonical(wire, expected, header.value);
      var total := RECORD_HEADER_SIZE + header.value.length;
      if |wire| < total then Err(Incomplete)
      else
        var payload := wire[RECORD_HEADER_SIZE..total];
        if Checksum(payload) != header.value.crc then Err(BadChecksum)
        else
          var record := DecodePayload(header.value, payload);
          if record.Err? then Err(record.error) else Ok(Decoded(record.value, total))
  }

  lemma PayloadDecodes(record: Record)
    requires ValidPayload(record)
    ensures LengthInBounds(TypeOfRecord(record), |Payload(record)|)
    ensures DecodePayload(HeaderFor(record), Payload(record)) == Ok(record)
  {
    hide ValidSnapshot, EncodeJob, DecodeJob;
    PayloadLength(record);
    match record
    case WorkerAllocated(_, id) => PutGet(W4, id);
    case JobSnapshot(kind, _, job) => JobDecodes(kind, job);
  }

  lemma PayloadCanonical(header: Header, payload: bytes, record: Record)
    requires LengthInBounds(header.kind, |payload|)
    requires DecodePayload(header, payload) == Ok(record)
    ensures ValidPayload(record) && Payload(record) == payload
    ensures TypeOfRecord(record) == header.kind && record.sequence == header.sequence
  {
    hide ValidSnapshot, EncodeJob, DecodeJob;
    match header.kind
    case AllocationType => GetPut(W4, payload);
    case JobType(kind) => JobCanonical(payload, kind, record.job);
  }
}
