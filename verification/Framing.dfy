/** Incremental framing: however the byte stream is cut into reads, the messages
    handled are exactly its successive frames. */
module Framing {
  import opened Base
  import opened Bytes
  import opened Messages
  import opened Protocol
  import opened ProtocolCodec
  import opened EventLoop

  /** A decoder that wants more bytes has fewer than the header announces. */
  lemma TooSmallMeansShort(wire: bytes)
    requires DecodeMessage(wire) == Err(BufferTooSmall) && DecodeFrameHeader(wire).Ok?
    ensures |wire| < WIRE_HEADER_SIZE + DecodeFrameHeader(wire).value.length
  {
    hide DecodeFrameHeader, Minimum, Extra, Rebuild, RebuildListing, GetFields, Announced, PrefixLayout, Fits, Validate;
    var h := DecodeFrameHeader(wire).value;
    forall m, size ensures Validate(m, size) != Some(BufferTooSmall) {
      NeverTooSmall(m, size);
    }
  }

  lemma NeverTooSmall(m: Message, size: nat)
    ensures Validate(m, size) != Some(BufferTooSmall)
  {
    hide ValidateJobsFrom, ValidateWorkersFrom, StatsValid;
    if m.JobsResponse? {
      JobsNeverTooSmall(m.jobs, 0);
    } else if m.WorkersResponse? {
      WorkersNeverTooSmall(m.workers, 0);
    }
  }

  lemma {:induction false} JobsNeverTooSmall(jobs: seq<JobSummary>, i: nat)
    requires i <= |jobs|
    ensures ValidateJobsFrom(jobs, i) != Some(BufferTooSmall)
    decreases |jobs| - i
  {
    if i < |jobs| {
      JobsNeverTooSmall(jobs, i + 1);
    }
  }

  lemma {:induction false} WorkersNeverTooSmall(workers: seq<WorkerSummary>, i: nat)
    requires i <= |workers|
    ensures ValidateWorkersFrom(workers, i) != Some(BufferTooSmall)
    decreases |workers| - i
  {
    if i < |workers| {
      WorkersNeverTooSmall(workers, i + 1);
    }
  }

  /** A decoded message is the one its header announces. */
  lemma DecodedHeader(wire: bytes, r: Received)
    requires DecodeMessage(wire) == Ok(r)
    ensures DecodeFrameHeader(wire).Ok?
    ensures var h := DecodeFrameHeader(wire).value;
            h.code == Code(r.message) && r.consumed == WIRE_HEADER_SIZE + h.length <= |wire|
  {
    hide DecodeFrameHeader, DecodePayload, Minimum, Extra, Validate, Body, Code, Values, PrefixLayout, PutFields;
    var h := DecodeFrameHeader(wire).value;
    HeaderCanonical(wire, h);
    PayloadCanonical(h, wire[WIRE_HEADER_SIZE..], r);
  }

  // ---------- one connection's stream ----------

  /** Bytes that arrive, and the role the connection has at that moment. */
  datatype Arrival = Arrival(chunk: bytes, workerId: u32, jobClient: bool)

  datatype Stream = Stream(client: Client, handled: seq<Message>, broken: bool)

  /** A fresh connection. */
  function FreshStream(fd: int): Stream {
    Stream(Client(fd, Reading, 0, false, [], WIRE_HEADER_SIZE, [], 0, 0), [], false)
  }

  /** `read_message` as far as the stream is concerned.  A refused frame stays in the
      buffer, so that nothing fits behind it. */
  function Receive(s: Stream, a: Arrival): Stream {
    if s.broken then s
    else
      var c := s.client.(input := s.client.input + a.chunk, workerId := a.workerId, jobClient := a.jobClient);
      if |c.input| < c.expected then s.(client := c)
      else
        match FrameOf(c)
        case Broken => Stream(c, s.handled, true)
        case More(expected) => s.(client := c.(expected := expected))
        case Whole(m) => Stream(ResetInput(c), s.handled + [m], false)
  }

  function ReceiveAll(s: Stream, arrivals: seq<Arrival>): Stream {
    if arrivals == [] then s else Receive(ReceiveAll(s, arrivals[..|arrivals| - 1]), arrivals[|arrivals| - 1])
  }

  function BytesOf(arrivals: seq<Arrival>): bytes {
    if arrivals == [] then [] else BytesOf(arrivals[..|arrivals| - 1]) + arrivals[|arrivals| - 1].chunk
  }

  /** Each read delivers at least one byte and at most what is still expected. */
  predicate ReadsFit(s: Stream, arrivals: seq<Arrival>) {
    forall n :: 0 <= n < |arrivals| ==>
      var before := ReceiveAll(s, arrivals[..n]).client;
      0 < |arrivals[n].chunk| <= before.expected - |before.input|
  }

  /** The successive frames of a byte string. */
  function MessagesIn(wire: bytes): seq<Message>
    decreases |wire|
  {
    var read := DecodeMessage(wire);
    if read.Err? then []
    else
      MessageCanonical(wire, read.value);
      [read.value.message] + MessagesIn(wire[read.value.consumed..])
  }

  // ---------- framing is exact ----------

  predicate Encodable(m: Message) {
    EncodeMessage(m, MAX_FRAME_SIZE).Ok?
  }

  predicate AllEncodable(ms: seq<Message>) {
    forall i :: 0 <= i < |ms| ==> Encodable(ms[i])
  }

  function EncodeAll(ms: seq<Message>): bytes
    requires AllEncodable(ms)
  {
    if ms == [] then []
    else
      assert Encodable(ms[|ms| - 1]);
      EncodeAll(ms[..|ms| - 1]) + EncodeMessage(ms[|ms| - 1], MAX_FRAME_SIZE).value
  }

  lemma FirstMessage(m: Message, rest: bytes)
    requires Encodable(m)
    ensures MessagesIn(EncodeMessage(m, MAX_FRAME_SIZE).value + rest) == [m] + MessagesIn(rest)
  {
    hide EncodeMessage, DecodeMessage;
    var wire := EncodeMessage(m, MAX_FRAME_SIZE).value;
    MessageDecodes(m, MAX_FRAME_SIZE, wire, rest);
    assert (wire + rest)[|wire|..] == rest;
  }

  lemma {:induction false} MessagesInEncoded(ms: seq<Message>, rest: bytes)
    requires AllEncodable(ms)
    ensures MessagesIn(EncodeAll(ms) + rest) == ms + MessagesIn(rest)
    decreases |ms|
  {
    hide EncodeMessage, MessagesIn;
    if ms == [] {
      assert EncodeAll(ms) + rest == rest;
    } else {
      var n := |ms| - 1;
      var last := ms[n];
      assert Encodable(last);
      var wire := EncodeMessage(last, MAX_FRAME_SIZE).value;
      assert EncodeAll(ms) + rest == EncodeAll(ms[..n]) + (wire + rest);
      MessagesInEncoded(ms[..n], wire + rest);
      FirstMessage(last, rest);
      assert ms == ms[..n] + [last];
    }
  }

  /** The reader's part of the frame invariant. */
  predicate ReaderOk(c: Client) {
    && |c.input| < c.expected <= MAX_FRAME_SIZE
    && (if |c.input| < WIRE_HEADER_SIZE then c.expected == WIRE_HEADER_SIZE
        else
          var header := DecodeFrameHeader(c.input);
          header.Ok? && c.expected == WIRE_HEADER_SIZE + header.value.length)
  }

  /** Everything received is the frames handled so far and what is in the buffer: the
      beginning of the next frame, or a frame that was refused. */
  predicate StreamOk(s: Stream, received: bytes) {
    && AllEncodable(s.handled)
    && received == EncodeAll(s.handled) + s.client.input
    && (if s.broken then |s.client.input| == s.client.expected && FrameOf(s.client).Broken? else ReaderOk(s.client))
  }

  /** What a full buffer leads to. */
  lemma FrameReached(before: Client, c: Client)
    requires ReaderOk(before) && |c.input| == c.expected == before.expected
    requires |before.input| <= |c.input| && before.input == c.input[..|before.input|]
    ensures FrameOf(c).More? ==> ReaderOk(c.(expected := FrameOf(c).expected))
    ensures FrameOf(c).Whole? ==> EncodeMessage(FrameOf(c).message, MAX_FRAME_SIZE) == Ok(c.input)
  {
    hide DecodeMessage, EncodeMessage, DecodeFrameHeader, Code;
    var more := c.input[|before.input|..];
    assert c.input == before.input + more;
    if |before.input| >= WIRE_HEADER_SIZE {
      HeaderIgnoresRest(before.input, more);
    }
    var read := DecodeMessage(c.input);
    if read.Ok? {
      DecodedHeader(c.input, read.value);
      MessageCanonical(c.input, read.value);
      assert c.input[..|c.input|] == c.input;
    } else if read == Err(BufferTooSmall) && DecodeFrameHeader(c.input).Ok? {
      TooSmallMeansShort(c.input);
    }
  }

  lemma ReceiveKeeps(s: Stream, received: bytes, a: Arrival)
    requires !s.broken && StreamOk(s, received)
    requires 0 < |a.chunk| <= s.client.expected - |s.client.input|
    ensures StreamOk(Receive(s, a), received + a.chunk)
  {
    hide EncodeMessage, DecodeFrameHeader, FrameOf;
    var before := s.client;
    var c := before.(input := before.input + a.chunk, workerId := a.workerId, jobClient := a.jobClient);
    assert received + a.chunk == EncodeAll(s.handled) + c.input;
    assert c.input[..|before.input|] == before.input;
    if |c.input| < c.expected {
      if |before.input| >= WIRE_HEADER_SIZE {
        HeaderIgnoresRest(before.input, a.chunk);
      }
    } else {
      FrameReached(before, c);
      if FrameOf(c).Whole? {
        var m := FrameOf(c).message;
        var ms := s.handled + [m];
        assert ms[..|ms| - 1] == s.handled;
        assert AllEncodable(ms);
      }
    }
  }

  lemma {:induction false} ReceiveAllKeeps(fd: int, arrivals: seq<Arrival>)
    requires ReadsFit(FreshStream(fd), arrivals)
    ensures StreamOk(ReceiveAll(FreshStream(fd), arrivals), BytesOf(arrivals))
    decreases |arrivals|
  {
    hide Receive, EncodeAll, AllEncodable, FrameOf;
    if arrivals == [] {
      FreshOk(fd);
    } else {
      var n := |arrivals| - 1;
      forall k | 0 <= k < n ensures arrivals[..n][..k] == arrivals[..k] {}
      ReceiveAllKeeps(fd, arrivals[..n]);
      ReceiveKeeps(ReceiveAll(FreshStream(fd), arrivals[..n]), BytesOf(arrivals[..n]), arrivals[n]);
    }
  }

  lemma FreshOk(fd: int)
    ensures StreamOk(FreshStream(fd), [])
  {}

  lemma PartialHasNone(c: Client)
    requires ReaderOk(c)
    ensures MessagesIn(c.input) == []
  {
    hide DecodeMessage;
    if DecodeMessage(c.input).Ok? {
      DecodedHeader(c.input, DecodeMessage(c.input).value);
    }
  }

  /** A refused frame decodes only if it is a bare header whose type the role forbids. */
  lemma RefusedFrame(c: Client)
    requires FrameOf(c).Broken?
    ensures DecodeMessage(c.input).Ok? ==>
              && |c.input| == WIRE_HEADER_SIZE
              && !Allowed(Code(DecodeMessage(c.input).value.message), c)
  {
    hide DecodeMessage, DecodeFrameHeader, Code, Allowed;
    if DecodeMessage(c.input).Ok? {
      DecodedHeader(c.input, DecodeMessage(c.input).value);
    }
  }

  /** Framing is exact: whatever the fragmentation, everything received is the encoding
      of the messages handled and what is still in the buffer, so the messages handled
      are the first messages of the byte stream.
      While the connection is open they are all of them, and before the next read fewer
      bytes are held than expected, within the buffer, so that a zero-length read can
      only mean the end of the stream.  A connection is refused on a full buffer that
      `FrameOf` calls broken; a message is then left unhandled exactly if that buffer
      decodes, which takes a message without payload that the role forbids. */
  lemma FramingIsExact(fd: int, arrivals: seq<Arrival>)
    requires ReadsFit(FreshStream(fd), arrivals)
    ensures var s := ReceiveAll(FreshStream(fd), arrivals);
            var messages := MessagesIn(BytesOf(arrivals));
            && AllEncodable(s.handled) && BytesOf(arrivals) == EncodeAll(s.handled) + s.client.input
            && s.handled <= messages
            && (!s.broken ==> s.handled == messages && |s.client.input| < s.client.expected <= MAX_FRAME_SIZE)
            && (s.broken ==>
                  && |s.client.input| == s.client.expected && FrameOf(s.client).Broken?
                  && (s.handled != messages <==> DecodeMessage(s.client.input).Ok?)
                  && (s.handled != messages ==> !Allowed(Code(DecodeMessage(s.client.input).value.message), s.client)))
  {
    hide ReceiveAll, EncodeAll, ReadsFit, FrameOf, DecodeMessage, Code, Allowed;
    ReceiveAllKeeps(fd, arrivals);
    var s := ReceiveAll(FreshStream(fd), arrivals);
    MessagesInEncoded(s.handled, s.client.input);
    if s.broken {
      RefusedFrame(s.client);
    } else {
      PartialHasNone(s.client);
    }
  }
}
