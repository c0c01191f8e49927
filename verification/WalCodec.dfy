/** What the log format guarantees: the codec is a bijection on valid records, torn
    records are recognised as incomplete, and any damaged byte is detected. */
module WalCodec {
  import opened Base
  import opened Bytes
  import opened Crc
  import opened JobModel
  import opened WalFormat

  /** With an intact header, everything depends on the payload that follows it. */
  lemma DecodeAfterHeader(header: Header, payload: bytes, rest: bytes)
    requires header.sequence != 0 && header.length == |payload| && LengthInBounds(header.kind, |payload|)
    ensures DecodeRecord(EncodeHeader(header) + (payload + rest), header.sequence) ==
            if Checksum(payload) != header.crc then Err(BadChecksum)
            else
              var record := DecodePayload(header, payload);
              if record.Err? then Err(record.error)
              else Ok(Decoded(record.value, RECORD_HEADER_SIZE + |payload|))
  {
    hide DecodeHeader, EncodeHeader, DecodePayload, LengthInBounds, Checksum;
    var wire := EncodeHeader(header) + (payload + rest);
    HeaderDecodes(header, payload + rest);
    assert wire[RECORD_HEADER_SIZE..RECORD_HEADER_SIZE + |payload|] == payload;
  }

  /** Decoding inverts encoding, whatever follows the record. */
  lemma RecordDecodes(record: Record, wire: bytes, rest: bytes)
    requires EncodeRecord(record) == Ok(wire)
    ensures DecodeRecord(wire + rest, record.sequence) == Ok(Decoded(record, |wire|))
  {
    hide DecodeRecord, EncodeHeader, DecodePayload, Payload, ValidPayload, LengthInBounds, Checksum;
    var header, payload := HeaderFor(record), Payload(record);
    PayloadDecodes(record);
    DecodeAfterHeader(header, payload, rest);
    assert wire + rest == EncodeHeader(header) + (payload + rest);
  }

  /** Every accepted byte string is the encoding of what it decodes to. */
  lemma RecordCanonical(wire: bytes, expected: u64, decoded: Decoded)
    requires DecodeRecord(wire, expected) == Ok(decoded)
    ensures RECORD_HEADER_SIZE < decoded.consumed <= |wire|
    ensures decoded.record.sequence == expected
    ensures EncodeRecord(decoded.record) == Ok(wire[..decoded.consumed])
  {
    hide DecodeHeader, EncodeHeader, DecodePayload, Payload, ValidPayload, Checksum;
    var header := DecodeHeader(wire, expected).value;
    HeaderCanonical(wire, expected, header);
    var payload := wire[RECORD_HEADER_SIZE..decoded.consumed];
    PayloadCanonical(header, payload, decoded.record);
    assert HeaderFor(decoded.record) == header;
    assert wire[..decoded.consumed] == wire[..RECORD_HEADER_SIZE] + payload;
  }

  /** A strict prefix of a record is incomplete, never damaged and never complete. */
  lemma PrefixIncomplete(record: Record, wire: bytes, k: nat)
    requires EncodeRecord(record) == Ok(wire) && k < |wire|
    ensures DecodeRecord(wire[..k], record.sequence) == Err(Incomplete)
  {
    hide Payload, ValidPayload, EncodeHeader, Checksum, LengthInBounds;
    if k < RECORD_HEADER_SIZE {
      ShortIsIncomplete(wire[..k], record.sequence);
    } else {
      hide DecodeHeader, DecodePayload;
      var header := HeaderFor(record);
      PayloadLength(record);
      var torn := wire[RECORD_HEADER_SIZE..k];
      HeaderDecodes(header, torn);
      assert wire[..k] == EncodeHeader(header) + torn;
    }
  }

  lemma ShortIsIncomplete(wire: bytes, expected: u64)
    requires |wire| < RECORD_HEADER_SIZE && expected != 0
    ensures DecodeRecord(wire, expected) == Err(Incomplete)
  {}

  lemma HeaderOutOfSequence(header: Header, rest: bytes, expected: u64)
    requires header.sequence != 0 && LengthInBounds(header.kind, header.length)
    requires expected != 0 && expected != header.sequence
    ensures DecodeRecord(EncodeHeader(header) + rest, expected) == Err(InvalidSequence)
  {
    hide Field, LayoutSize, HeaderLayout, Sealed, EncodeHeader, LengthInBounds, TypeOf;
    HeaderDecodes(header, rest);
  }

  lemma HeaderDamaged(header: Header, at: nat, b: byte, rest: bytes, expected: u64)
    requires at < RECORD_HEADER_SIZE && EncodeHeader(header)[at] != b && expected != 0
    ensures DecodeRecord(EncodeHeader(header)[at := b] + rest, expected) == Err(BadChecksum)
  {
    hide Sealed, Seal, PutFields;
    HeaderLayoutFacts();
    var head := EncodeHeader(header);
    SealIsSealed(PutFields(HeaderLayout(), HeaderFields(header)));
    DamageBreaksSeal(head, at, b);
    assert (head[at := b] + rest)[..RECORD_HEADER_SIZE] == head[at := b];
  }

  lemma PayloadDamaged(header: Header, payload: bytes, i: nat, b: byte, rest: bytes, expected: u64)
    requires header.sequence != 0 && header.length == |payload| && LengthInBounds(header.kind, |payload|)
    requires header.crc == Checksum(payload) && i < |payload| && payload[i] != b && expected != 0
    ensures DecodeRecord(EncodeHeader(header) + (payload[i := b] + rest), expected)
            == (if expected == header.sequence then Err(BadChecksum) else Err(InvalidSequence))
  {
    hide DecodeRecord, EncodeHeader, LengthInBounds, Checksum;
    if expected == header.sequence {
      ByteChangesChecksum(payload, i, b);
      DecodeAfterHeader(header, payload[i := b], rest);
    } else {
      HeaderOutOfSequence(header, payload[i := b] + rest, expected);
    }
  }

  /** Changing any single byte of a complete record, at any position and for any
      payload length, is reported as a bad checksum when the record is read in
      sequence, whatever follows it: never as incomplete, never accepted.  Damage in
      the header is reported so even when another sequence number is expected. */
  lemma DamageDetected(record: Record, wire: bytes, at: nat, b: byte, rest: bytes, expected: u64)
    requires EncodeRecord(record) == Ok(wire) && at < |wire| && wire[at] != b && expected != 0
    ensures DecodeRecord(wire[at := b] + rest, expected)
            == (if at < RECORD_HEADER_SIZE || expected == record.sequence then Err(BadChecksum)
                else Err(InvalidSequence))
  {
    hide DecodeRecord, EncodeHeader, Payload, ValidPayload, Checksum, LengthInBounds;
    var header, payload := HeaderFor(record), Payload(record);
    var head := EncodeHeader(header);
    PayloadLength(record);
    if at < RECORD_HEADER_SIZE {
      HeaderDamaged(header, at, b, payload + rest, expected);
      assert wire[at := b] + rest == head[at := b] + (payload + rest);
    } else {
      var i := at - RECORD_HEADER_SIZE;
      PayloadDamaged(header, payload, i, b, rest, expected);
      assert wire[at := b] + rest == head + (payload[i := b] + rest);
    }
  }

  /** `matches_snapshot` compares bytes; that is the same as comparing every
      persisted field of the two snapshots. */
  lemma MatchesSnapshot(kind: Kind, sequence: u64, saved: Job, candidate: Job, wire: bytes)
    requires EncodeRecord(JobSnapshot(kind, sequence, saved)) == Ok(wire)
    ensures EncodeRecord(JobSnapshot(kind, sequence, candidate)) == Ok(wire) <==> candidate == saved
  {
    hide EncodeRecord, DecodeRecord;
    if EncodeRecord(JobSnapshot(kind, sequence, candidate)) == Ok(wire) {
      RecordDecodes(JobSnapshot(kind, sequence, saved), wire, []);
      RecordDecodes(JobSnapshot(kind, sequence, candidate), wire, []);
    }
  }
}
