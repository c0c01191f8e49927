/** What the wire protocol codec guarantees, for all twenty message types. */
module ProtocolCodec {
  import opened Base
  import opened Bytes
  import opened Messages
  import opened Protocol

  // ---------- headers ----------

  lemma HeaderFits(h: WireHeader)
    requires Known(h.code) && h.length <= MAX_PAYLOAD_SIZE
    ensures Fits(FrameLayout(), [PROTOCOL_MAGIC, PROTOCOL_VERSION, h.code, h.length])
  {}

  lemma HeaderDecodes(h: WireHeader, rest: bytes)
    requires Known(h.code) && h.length <= MAX_PAYLOAD_SIZE
    ensures DecodeFrameHeader(FrameHeader(h) + rest) == Ok(h)
  {
    hide GetFields, PutFields, LayoutSize, Fits;
    FrameLayoutSize();
    HeaderFits(h);
    FieldsInvert(FrameLayout(), [PROTOCOL_MAGIC, PROTOCOL_VERSION, h.code, h.length], rest);
  }

  lemma HeaderCanonical(wire: bytes, h: WireHeader)
    requires DecodeFrameHeader(wire) == Ok(h)
    ensures |wire| >= WIRE_HEADER_SIZE && wire[..WIRE_HEADER_SIZE] == FrameHeader(h)
    ensures Known(h.code) && h.length <= MAX_PAYLOAD_SIZE
  {
    hide GetFields, PutFields, LayoutSize;
    FrameLayoutSize();
    FieldsCanonical(FrameLayout(), wire);
    assert GetFields(FrameLayout(), wire) == [PROTOCOL_MAGIC, PROTOCOL_VERSION, h.code, h.length];
  }

  lemma HeaderIgnoresRest(wire: bytes, more: bytes)
    requires DecodeFrameHeader(wire).Ok?
    ensures DecodeFrameHeader(wire + more) == DecodeFrameHeader(wire)
  {
    hide DecodeFrameHeader, FrameHeader;
    var h := DecodeFrameHeader(wire).value;
    HeaderCanonical(wire, h);
    var rest := wire[WIRE_HEADER_SIZE..] + more;
    HeaderDecodes(h, rest);
    assert FrameHeader(h) + rest == wire + more;
  }

  // ---------- messages as fields ----------

  lemma StatsFit(s: Stats)
    ensures Fits(StatsLayout(), StatsValues(s)) && AllU64(StatsValues(s))
  {}

  lemma StatsInvert(s: Stats)
    requires AllU64(StatsValues(s))
    ensures StatsOf(StatsValues(s)) == s
  {}

  lemma StatsCanonical(v: seq<nat>)
    requires |v| == 24 && AllU64(v)
    ensures StatsValues(StatsOf(v)) == v
  {}

  lemma ListingFits(m: Message)
    requires IsListing(Code(m)) && ValidateFields(m, |Body(m)|).None?
    ensures Fits(PrefixLayout(Code(m)), Values(m))
    ensures Announced(Code(m), Values(m)) == |Body(m)| <= Extra(Code(m))
  {
    hide ValidateJobsFrom, ValidateWorkersFrom, JobRows, WorkerRows, LayoutSize, PutRows, JobRowLayout, WorkerRowLayout;
    RowSizes();
  }

  /** The fields of a valid message fit their layout and announce its body. */
  lemma ValuesFit(m: Message)
    requires Validate(m, |Body(m)|).None?
    ensures Fits(PrefixLayout(Code(m)), Values(m))
    ensures Announced(Code(m), Values(m)) == |Body(m)| <= Extra(Code(m))
  {
    hide StatsValid, StatsValues, StatsLayout, ValidateStatus, ValidateJobs, ValidateWorkers, ValidateIdentity, PutRows,
      JobRows, WorkerRows;
    if IsListing(Code(m)) {
      ListingFits(m);
    } else if m.StatsResponse? {
      StatsFit(m.stats);
    }
  }

  lemma RebuildInverts(m: Message)
    requires !IsListing(Code(m)) && Fits(PrefixLayout(Code(m)), Values(m))
    ensures Rebuild(Code(m), Values(m), Body(m)) == m
  {
    hide StatsValues, StatsOf, StatsLayout;
    if m.StatsResponse? {
      StatsFit(m.stats);
      StatsInvert(m.stats);
    }
  }

  lemma JobRowInverts(e: JobSummary)
    ensures JobOfRow(JobRow(e)) == e
  {}

  lemma JobRowCanonical(row: seq<nat>)
    requires Fits(JobRowLayout(), row)
    ensures JobRow(JobOfRow(row)) == row
  {}

  lemma WorkerRowInverts(e: WorkerSummary)
    ensures WorkerOfRow(WorkerRow(e)) == e
  {}

  lemma WorkerRowCanonical(row: seq<nat>)
    requires Fits(WorkerRowLayout(), row)
    ensures WorkerRow(WorkerOfRow(row)) == row
  {}

  lemma ListingInverts(m: Message)
    requires IsListing(Code(m)) && Fits(PrefixLayout(Code(m)), Values(m))
    requires Announced(Code(m), Values(m)) == |Body(m)|
    ensures RebuildListing(Code(m), Values(m), Body(m)) == m
  {
    hide GetRows, PutRows, JobRow, JobOfRow, WorkerRow, WorkerOfRow, LayoutSize;
    RowSizes();
    match m {
      case JobsResponse(jobs) =>
        RowsInvert(JobRowLayout(), JobRows(jobs));
        forall i | 0 <= i < |jobs| ensures JobOfRow(JobRow(jobs[i])) == jobs[i] { JobRowInverts(jobs[i]); }
        assert JobsOfRows(JobRows(jobs)) == jobs;
      case WorkersResponse(timeout, workers) =>
        RowsInvert(WorkerRowLayout(), WorkerRows(workers));
        forall i | 0 <= i < |workers|
            ensures WorkerOfRow(WorkerRow(workers[i])) == workers[i] { WorkerRowInverts(workers[i]); }
        assert WorkersOfRows(WorkerRows(workers)) == workers;
    }
  }

  /** A message built from fields has exactly those fields. */
  lemma RebuildCanonical(code: nat, v: seq<nat>, data: bytes)
    requires Known(code) && !IsListing(code) && Fits(PrefixLayout(code), v) && |data| == Announced(code, v)
    ensures var m := Rebuild(code, v, data); Code(m) == code && Values(m) == v && Body(m) == data
  {
    hide StatsValues, StatsOf, StatsLayout;
    if code == 20 {
      StatsWordsFit(v);
      StatsCanonical(v);
    }
  }

  lemma StatsWordsFit(v: seq<nat>)
    requires Fits(StatsLayout(), v)
    ensures |v| == 24 && AllU64(v)
  {}

  lemma ListingCanonical(code: nat, v: seq<nat>, body: bytes)
    requires IsListing(code) && Fits(PrefixLayout(code), v) && |body| == Announced(code, v)
    ensures var m := RebuildListing(code, v, body); Code(m) == code && Values(m) == v && Body(m) == body
  {
    hide GetRows, PutRows, JobRow, JobOfRow, WorkerRow, WorkerOfRow, LayoutSize;
    RowSizes();
    if code == 16 {
      var rows := GetRows(JobRowLayout(), body, v[0]);
      RowsCanonical(JobRowLayout(), body, v[0]);
      forall i | 0 <= i < |rows| ensures JobRow(JobOfRow(rows[i])) == rows[i] { JobRowCanonical(rows[i]); }
      assert JobRows(JobsOfRows(rows)) == rows;
    } else {
      var rows := GetRows(WorkerRowLayout(), body, v[0]);
      RowsCanonical(WorkerRowLayout(), body, v[0]);
      forall i | 0 <= i < |rows| ensures WorkerRow(WorkerOfRow(rows[i])) == rows[i] { WorkerRowCanonical(rows[i]); }
      assert WorkerRows(WorkersOfRows(rows)) == rows;
    }
  }

  /** Validation looks at the announced size, never at the data itself. */
  lemma ValidationIgnoresData(code: nat, v: seq<nat>, data: bytes, size: nat)
    requires Known(code) && !IsListing(code) && Fits(PrefixLayout(code), v)
    ensures Validate(Rebuild(code, v, []), size) == Validate(Rebuild(code, v, data), size)
  {
    hide StatsValid;
  }

  // ---------- frames ----------

  function HeaderOf(m: Message): WireHeader {
    WireHeader(Code(m), Minimum(Code(m)) + |Body(m)|)
  }

  lemma CodeKnown(m: Message)
    ensures Known(Code(m))
  {}

  lemma HeaderInBounds(m: Message)
    requires Validate(m, |Body(m)|).None?
    ensures Minimum(Code(m)) <= HeaderOf(m).length <= Minimum(Code(m)) + Extra(Code(m)) <= MAX_PAYLOAD_SIZE
    ensures WIRE_HEADER_SIZE + HeaderOf(m).length <= MAX_FRAME_SIZE
  {
    hide Values, Body, Code, Validate, PrefixLayout, Fits;
    ValuesFit(m);
  }

  /** The prefix of a message and whatever has arrived after it. */
  lemma PayloadRead(m: Message, tail: bytes)
    requires Validate(m, |Body(m)|).None?
    requires Fits(PrefixLayout(Code(m)), Values(m)) && LayoutSize(PrefixLayout(Code(m))) == Minimum(Code(m))
    ensures var payload := PutFields(PrefixLayout(Code(m)), Values(m)) + tail;
            && |payload| == Minimum(Code(m)) + |tail|
            && GetFields(PrefixLayout(Code(m)), payload) == Values(m)
            && (|tail| >= |Body(m)| ==> payload[Minimum(Code(m))..HeaderOf(m).length] == tail[..|Body(m)|])
  {
    hide GetFields, PutFields, LayoutSize, PrefixLayout, Values, Body, Code, Minimum, Validate;
    FieldsInvert(PrefixLayout(Code(m)), Values(m), tail);
  }

  /** A frame cut after its prefix waits for more; a complete one gives the message. */
  lemma PayloadDecodes(m: Message, tail: bytes)
    requires Validate(m, |Body(m)|).None? && Fits(PrefixLayout(Code(m)), Values(m))
    requires |tail| >= |Body(m)| ==> tail[..|Body(m)|] == Body(m)
    ensures var payload := PutFields(PrefixLayout(Code(m)), Values(m)) + tail;
            && Known(Code(m)) && |payload| >= Minimum(Code(m))
            && Minimum(Code(m)) <= HeaderOf(m).length <= Minimum(Code(m)) + Extra(Code(m))
            && DecodePayload(HeaderOf(m), payload) ==
                 (if |tail| < |Body(m)| then Err(BufferTooSmall)
                  else Ok(Received(m, WIRE_HEADER_SIZE + HeaderOf(m).length)))
  {
    hide GetFields, PutFields, LayoutSize, PrefixLayout, Values, Body, Code, Minimum, Extra, Rebuild, RebuildListing,
      Validate, Announced, Fits;
    CodeKnown(m);
    PrefixSize(Code(m));
    HeaderInBounds(m);
    ValuesFit(m);
    PayloadRead(m, tail);
    if IsListing(Code(m)) {
      ListingInverts(m);
      ListingCounts(m);
    } else {
      RebuildInverts(m);
      ValidationIgnoresData(Code(m), Values(m), Body(m), |Body(m)|);
    }
  }

  lemma ListingCounts(m: Message)
    requires Validate(m, |Body(m)|).None? && IsListing(Code(m))
    ensures |Values(m)| >= 1
    ensures Values(m)[0] <= (if Code(m) == 16 then MAX_JOB_ENTRIES else MAX_WORKER_ENTRIES)
    ensures Code(m) == 18 ==> |Values(m)| >= 2 && Values(m)[1] != 0
  {}

  lemma EncodedParts(m: Message, capacity: nat)
    requires EncodeMessage(m, capacity).Ok?
    ensures Validate(m, |Body(m)|).None? && |Values(m)| == |PrefixLayout(Code(m))|
    ensures EncodeMessage(m, capacity).value
            == FrameHeader(HeaderOf(m)) + (PutFields(PrefixLayout(Code(m)), Values(m)) + Body(m))
    ensures LayoutSize(PrefixLayout(Code(m))) == Minimum(Code(m))
    ensures |EncodeMessage(m, capacity).value| == WIRE_HEADER_SIZE + HeaderOf(m).length
  {
    hide PutFields, LayoutSize, PrefixLayout, Values, Body, Code, Minimum, Validate, FrameHeader;
    ValuesShape(m);
    PrefixSize(Code(m));
  }

  /** A frame whose prefix is complete. */
  lemma FrameDecodes(m: Message, tail: bytes)
    requires Validate(m, |Body(m)|).None? && |Values(m)| == |PrefixLayout(Code(m))|
    requires |tail| >= |Body(m)| ==> tail[..|Body(m)|] == Body(m)
    ensures DecodeMessage(FrameHeader(HeaderOf(m)) + (PutFields(PrefixLayout(Code(m)), Values(m)) + tail)) ==
              if |tail| < |Body(m)| then Err(BufferTooSmall)
              else Ok(Received(m, WIRE_HEADER_SIZE + HeaderOf(m).length))
  {
    hide GetFields, PutFields, LayoutSize, PrefixLayout, Values, Body, Code, Minimum, Extra, Validate, Fits,
         FrameHeader, DecodeFrameHeader, DecodePayload;
    var payload := PutFields(PrefixLayout(Code(m)), Values(m)) + tail;
    var wire := FrameHeader(HeaderOf(m)) + payload;
    CodeKnown(m);
    ValuesFit(m);
    HeaderInBounds(m);
    PayloadDecodes(m, tail);
    HeaderDecodes(HeaderOf(m), payload);
    assert wire[WIRE_HEADER_SIZE..] == payload;
  }

  /** Decoding inverts encoding, whatever follows the frame. */
  lemma MessageDecodes(m: Message, capacity: nat, wire: bytes, rest: bytes)
    requires EncodeMessage(m, capacity) == Ok(wire)
    ensures DecodeMessage(wire + rest) == Ok(Received(m, |wire|))
  {
    hide EncodeMessage, DecodeMessage, PutFields, PrefixLayout, Values, Body, Code, Minimum, Validate, FrameHeader;
    EncodedParts(m, capacity);
    FrameDecodes(m, Body(m) + rest);
    assert wire + rest == FrameHeader(HeaderOf(m)) + (PutFields(PrefixLayout(Code(m)), Values(m)) + (Body(m) + rest));
  }

  /** Every strict prefix of a valid frame asks for more bytes. */
  lemma PrefixTooSmall(m: Message, capacity: nat, wire: bytes, k: nat)
    requires EncodeMessage(m, capacity) == Ok(wire) && k < |wire|
    ensures DecodeMessage(wire[..k]) == Err(BufferTooSmall)
  {
    hide EncodeMessage, PutFields, PrefixLayout, Values, Body, Code, Minimum, Extra, Validate, FrameHeader, LayoutSize,
      DecodeFrameHeader, DecodePayload;
    EncodedParts(m, capacity);
    var fields := PutFields(PrefixLayout(Code(m)), Values(m));
    var head := FrameHeader(HeaderOf(m));
    if k < WIRE_HEADER_SIZE {
      ShortFrame(wire[..k]);
    } else if k < WIRE_HEADER_SIZE + Minimum(Code(m)) {
      CodeKnown(m);
      HeaderInBounds(m);
      var part := wire[WIRE_HEADER_SIZE..k];
      HeaderDecodes(HeaderOf(m), part);
      assert wire[..k] == head + part;
      assert Extra(Code(m)) == 0 ==> |Body(m)| == 0;
    } else {
      var part := Body(m)[..k - WIRE_HEADER_SIZE - Minimum(Code(m))];
      FrameDecodes(m, part);
      assert wire[..k] == head + (fields + part);
    }
  }

  lemma ShortFrame(wire: bytes)
    requires |wire| < WIRE_HEADER_SIZE
    ensures DecodeMessage(wire) == Err(BufferTooSmall)
  {}

  lemma PayloadCanonical(h: WireHeader, payload: bytes, r: Received)
    requires Known(h.code) && |payload| >= Minimum(h.code)
    requires Minimum(h.code) <= h.length <= Minimum(h.code) + Extra(h.code)
    requires DecodePayload(h, payload) == Ok(r)
    ensures h.length <= |payload| && r.consumed == WIRE_HEADER_SIZE + h.length
    ensures var m := r.message;
            && HeaderOf(m) == h && Validate(m, |Body(m)|).None?
            && |Values(m)| == |PrefixLayout(Code(m))|
            && PutFields(PrefixLayout(Code(m)), Values(m)) + Body(m) == payload[..h.length]
  {
    hide GetFields, PutFields, LayoutSize, PrefixLayout, Values, Body, Code, Minimum, Extra, Rebuild, RebuildListing,
      Validate, Announced, Fits;
    PrefixSize(h.code);
    var minimum, layout := Minimum(h.code), PrefixLayout(h.code);
    var v := GetFields(layout, payload);
    var data := payload[minimum..h.length];
    FieldsCanonical(layout, payload);
    FitsShape(layout, v);
    assert payload[..h.length] == payload[..minimum] + data;
    if IsListing(h.code) {
      ListingCanonical(h.code, v, data);
    } else {
      RebuildCanonical(h.code, v, data);
      ValidationIgnoresData(h.code, v, data, |data|);
    }
  }

  lemma FitsShape(layout: Layout, v: seq<nat>)
    requires Fits(layout, v)
    ensures |v| == |layout|
  {}

  /** Every accepted frame re-encodes to the same bytes. */
  lemma MessageCanonical(wire: bytes, r: Received)
    requires DecodeMessage(wire) == Ok(r)
    ensures WIRE_HEADER_SIZE <= r.consumed <= |wire| && r.consumed <= MAX_FRAME_SIZE
    ensures EncodeMessage(r.message, MAX_FRAME_SIZE) == Ok(wire[..r.consumed])
  {
    hide GetFields, PutFields, LayoutSize, PrefixLayout, Values, Body, Code, Minimum, Extra, Validate, FrameHeader,
      DecodeFrameHeader, DecodePayload;
    var h := DecodeFrameHeader(wire).value;
    HeaderCanonical(wire, h);
    var payload := wire[WIRE_HEADER_SIZE..];
    PayloadCanonical(h, payload, r);
    HeaderInBounds(r.message);
    PrefixSize(h.code);
    var fields, body := PutFields(PrefixLayout(h.code), Values(r.message)), Body(r.message);
    assert wire[..r.consumed] == wire[..WIRE_HEADER_SIZE] + payload[..h.length];
    assert FrameHeader(h) + fields + body == FrameHeader(h) + (fields + body);
  }
}
