/** Framing of ESRI shapefile main files: a header, then length-prefixed records. */
module Shapefile {
  import opened ByteStream

  const HEADER_BYTES := 100
  const READ_BYTES := 65536

  /** Record numbers and lengths are 32-bit unsigned fields. */
  const FIELD_LIMIT := 0x1_0000_0000

  datatype Verdict = Accepted | HeaderTruncated | RecordHeaderTruncated | RecordTooLarge | RecordTruncated

  datatype Record = Record(number: nat, content: Bytes)

  /** How many values a big-endian field of the given width can hold. */
  function Capacity(width: nat): nat {
    if width == 0 then 1 else 256 * Capacity(width - 1)
  }

  /** Four bytes hold exactly the fields of a record header. */
  lemma FourByteCapacity()
    ensures Capacity(4) == FIELD_LIMIT
  {
    assert Capacity(1) == 256;
    assert Capacity(2) == 0x1_0000;
    assert Capacity(3) == 0x100_0000;
  }

  predicate ValidRecord(record: Record, maxRecordBytes: nat) {
    && record.number < FIELD_LIMIT
    && |record.content| % 2 == 0 && |record.content| / 2 < FIELD_LIMIT
    && |record.content| <= maxRecordBytes
  }

  function BigEndian(value: nat, width: nat): (bytes: Bytes)
    requires value < Capacity(width)
    ensures |bytes| == width && Unsigned(bytes) == value
  {
    if width == 0 then [] else BigEndian(value / 256, width - 1) + [value % 256]
  }

  function Unsigned(bytes: Bytes): (value: nat)
    ensures value < Capacity(|bytes|)
  {
    if bytes == [] then 0
    else
      var low: int := bytes[|bytes| - 1];
      256 * Unsigned(bytes[..|bytes| - 1]) + low
  }

  /** The most significant byte comes first. */
  lemma BigEndianField(a: Byte, b: Byte, c: Byte, d: Byte)
    ensures Unsigned([a, b, c, d]) == 0x100_0000 * a as int + 0x1_0000 * b as int + 0x100 * c as int + d as int
  {
    assert [a, b, c, d][..3] == [a, b, c] && [a, b, c][..2] == [a, b] && [a, b][..1] == [a] && [a][..0] == [];
    assert Unsigned([a]) == a as int && Unsigned([a, b]) == 256 * a as int + b as int;
    assert Unsigned([a, b, c]) == 256 * Unsigned([a, b]) + c as int;
  }

  lemma {:induction false} UnsignedRoundTrip(bytes: Bytes)
    ensures BigEndian(Unsigned(bytes), |bytes|) == bytes
  {
    if bytes != [] {
      UnsignedRoundTrip(bytes[..|bytes| - 1]);
    }
  }

  function Field(value: nat): (bytes: Bytes)
    requires value < FIELD_LIMIT
    ensures |bytes| == 4 && Unsigned(bytes) == value
  {
    FourByteCapacity();
    BigEndian(value, 4)
  }

  function Frame(record: Record, maxRecordBytes: nat): Bytes
    requires ValidRecord(record, maxRecordBytes)
  {
    Field(record.number) + Field(|record.content| / 2) + record.content
  }

  function Frames(records: seq<Record>, maxRecordBytes: nat): Bytes
    requires forall r | r in records :: ValidRecord(r, maxRecordBytes)
  {
    if records == [] then [] else Frame(records[0], maxRecordBytes) + Frames(records[1..], maxRecordBytes)
  }

  /** The shape a main file must have. */
  ghost predicate WellFramed(file: Bytes, maxRecordBytes: nat) {
    && |file| >= 100
    && exists records: seq<Record> | (forall r | r in records :: ValidRecord(r, maxRecordBytes)) ::
         file[100..] == Frames(records, maxRecordBytes)
  }

  /** The verdict on the bytes after the header. */
  function CheckRecords(bytes: Bytes, maxRecordBytes: nat): Verdict {
    if bytes == [] then Accepted
    else if |bytes| < 8 then RecordHeaderTruncated
    else
      var size := 2 * Unsigned(bytes[4..8]);
      if size > maxRecordBytes then RecordTooLarge
      else if |bytes| - 8 < size then RecordTruncated
      else CheckRecords(bytes[8 + size..], maxRecordBytes)
  }

  function Check(file: Bytes, maxRecordBytes: nat): Verdict {
    if |file| < HEADER_BYTES then HeaderTruncated else CheckRecords(file[HEADER_BYTES..], maxRecordBytes)
  }

  /** Reads the stream once. If headers come back whole, it reaches the verdict on the bytes, however the
      content is split; and however anything is split, it accepts only what that verdict accepts. */
  method ValidateShapefileRecords(stream: Stream, maxRecordBytes: nat) returns (verdict: Verdict)
    modifies stream
    ensures stream.wholeReads >= HEADER_BYTES ==> verdict == Check(old(stream.data), maxRecordBytes)
    ensures verdict == Accepted ==> Check(old(stream.data), maxRecordBytes) == Accepted && stream.data == []
  {
    var fileHeader := stream.Read(HEADER_BYTES);
    if |fileHeader| != HEADER_BYTES {
      return HeaderTruncated;
    }
    assert old(stream.data)[HEADER_BYTES..] == stream.data;
    while true
      invariant CheckRecords(stream.data, maxRecordBytes) == Check(old(stream.data), maxRecordBytes)
      decreases |stream.data|
    {
      ghost var bytes := stream.data;
      var header := stream.Read(8);
      if header == [] {
        return Accepted;
      }
      if |header| != 8 {
        return RecordHeaderTruncated;
      }
      assert header[4..8] == bytes[4..8] && stream.data == bytes[8..];
      var recordBytes := 2 * Unsigned(header[4..8]);
      if recordBytes > maxRecordBytes {
        return RecordTooLarge;
      }
      var remaining := recordBytes;
      while remaining != 0
        invariant 0 <= remaining <= recordBytes
        invariant |bytes| == 8 + (recordBytes - remaining) + |stream.data|
        invariant stream.data == bytes[8 + (recordBytes - remaining)..]
        decreases remaining
      {
        ghost var unread := stream.data;
        var chunk := stream.Read(if READ_BYTES <= remaining then READ_BYTES else remaining);
        if chunk == [] {
          return RecordTruncated;
        }
        Advance(bytes, 8 + (recordBytes - remaining), unread, chunk, stream.data);
        remaining := remaining - |chunk|;
      }
      assert stream.data == bytes[8 + recordBytes..];
    }
  }

  lemma Advance(bytes: Bytes, at: nat, unread: Bytes, chunk: Bytes, rest: Bytes)
    requires at <= |bytes| && unread == bytes[at..] && chunk + rest == unread
    ensures at + |chunk| <= |bytes| && rest == bytes[at + |chunk|..]
  {
    assert rest == unread[|chunk|..];
  }

  /** The records of an accepted byte sequence. */
  function Records(bytes: Bytes, maxRecordBytes: nat): seq<Record>
    requires CheckRecords(bytes, maxRecordBytes) == Accepted
  {
    if bytes == [] then []
    else
      var size := 2 * Unsigned(bytes[4..8]);
      [Record(Unsigned(bytes[..4]), bytes[8..8 + size])] + Records(bytes[8 + size..], maxRecordBytes)
  }

  lemma {:induction false} AcceptedIsFrames(bytes: Bytes, maxRecordBytes: nat)
    requires CheckRecords(bytes, maxRecordBytes) == Accepted
    ensures forall r | r in Records(bytes, maxRecordBytes) :: ValidRecord(r, maxRecordBytes)
    ensures Frames(Records(bytes, maxRecordBytes), maxRecordBytes) == bytes
  {
    if bytes != [] {
      var size := 2 * Unsigned(bytes[4..8]);
      var record, rest := Record(Unsigned(bytes[..4]), bytes[8..8 + size]), bytes[8 + size..];
      AcceptedIsFrames(rest, maxRecordBytes);
      FirstRecord(bytes, size, record, maxRecordBytes);
      FrameThenFrames(record, Records(rest, maxRecordBytes), maxRecordBytes);
    }
  }

  lemma FirstRecord(bytes: Bytes, size: nat, record: Record, maxRecordBytes: nat)
    requires |bytes| >= 8 && size == 2 * Unsigned(bytes[4..8]) <= maxRecordBytes && 8 + size <= |bytes|
    requires record == Record(Unsigned(bytes[..4]), bytes[8..8 + size])
    ensures ValidRecord(record, maxRecordBytes)
    ensures Frame(record, maxRecordBytes) + bytes[8 + size..] == bytes
  {
    FieldsFrame(bytes[..4], bytes[4..8], record, maxRecordBytes);
    Pieces(bytes, size);
  }

  /** A record whose fields were read off these bytes is framed by them. */
  lemma FieldsFrame(number: Bytes, words: Bytes, record: Record, maxRecordBytes: nat)
    requires |number| == |words| == 4 && Unsigned(number) == record.number
    requires 2 * Unsigned(words) == |record.content| <= maxRecordBytes
    ensures ValidRecord(record, maxRecordBytes) && Frame(record, maxRecordBytes) == number + words + record.content
  {
    FieldLimit(number);
    FieldLimit(words);
    FieldRead(number, record.number);
    FieldRead(words, |record.content| / 2);
  }

  lemma FieldRead(field: Bytes, value: nat)
    requires |field| == 4 && Unsigned(field) == value < FIELD_LIMIT
    ensures Field(value) == field
  {
    UnsignedRoundTrip(field);
  }

  lemma FieldLimit(field: Bytes)
    requires |field| == 4
    ensures Unsigned(field) < FIELD_LIMIT
  {
    FourByteCapacity();
  }

  lemma Pieces(bytes: Bytes, size: nat)
    requires 8 + size <= |bytes|
    ensures bytes[..4] + bytes[4..8] + bytes[8..8 + size] + bytes[8 + size..] == bytes
  {
  }

  lemma FrameThenFrames(record: Record, records: seq<Record>, maxRecordBytes: nat)
    requires ValidRecord(record, maxRecordBytes)
    requires forall r | r in records :: ValidRecord(r, maxRecordBytes)
    ensures forall r | r in [record] + records :: ValidRecord(r, maxRecordBytes)
    ensures Frames([record] + records, maxRecordBytes) == Frame(record, maxRecordBytes) + Frames(records, maxRecordBytes)
  {
    assert ([record] + records)[1..] == records;
  }

  lemma FirstFrame(record: Record, rest: Bytes, maxRecordBytes: nat)
    requires ValidRecord(record, maxRecordBytes)
    ensures var bytes := Frame(record, maxRecordBytes) + rest;
            && |bytes| == 8 + |record.content| + |rest|
            && Unsigned(bytes[..4]) == record.number && 2 * Unsigned(bytes[4..8]) == |record.content|
            && bytes[8..8 + |record.content|] == record.content && bytes[8 + |record.content|..] == rest
            && CheckRecords(bytes, maxRecordBytes) == CheckRecords(rest, maxRecordBytes)
  {
    var bytes := Frame(record, maxRecordBytes) + rest;
    assert bytes[..4] == Field(record.number);
    assert bytes[4..8] == Field(|record.content| / 2);
    assert bytes[8 + |record.content|..] == rest;
  }

  /** Serialising any valid record list is accepted, and reading it back gives that list. */
  lemma {:induction false} FramesRoundTrip(records: seq<Record>, maxRecordBytes: nat)
    requires forall r | r in records :: ValidRecord(r, maxRecordBytes)
    ensures CheckRecords(Frames(records, maxRecordBytes), maxRecordBytes) == Accepted
    ensures Records(Frames(records, maxRecordBytes), maxRecordBytes) == records
  {
    if records != [] {
      var rest := Frames(records[1..], maxRecordBytes);
      FramesRoundTrip(records[1..], maxRecordBytes);
      FirstFrame(records[0], rest, maxRecordBytes);
    }
  }

  /** A file is accepted exactly when it is a header followed by whole records. */
  lemma AcceptedIffWellFramed(file: Bytes, maxRecordBytes: nat)
    ensures Check(file, maxRecordBytes) == Accepted <==> WellFramed(file, maxRecordBytes)
  {
    if Check(file, maxRecordBytes) == Accepted {
      AcceptedIsFrames(file[HEADER_BYTES..], maxRecordBytes);
    }
    if WellFramed(file, maxRecordBytes) {
      var records: seq<Record> :| (forall r | r in records :: ValidRecord(r, maxRecordBytes))
        && file[HEADER_BYTES..] == Frames(records, maxRecordBytes);
      FramesRoundTrip(records, maxRecordBytes);
    }
  }

  lemma CutFrame(last: Record, kept: nat, maxRecordBytes: nat)
    requires ValidRecord(last, maxRecordBytes)
    requires 0 < kept < |Frame(last, maxRecordBytes)|
    ensures CheckRecords(Frame(last, maxRecordBytes)[..kept], maxRecordBytes)
            == if kept < 8 then RecordHeaderTruncated else RecordTruncated
  {
    var whole := Frame(last, maxRecordBytes);
    if kept >= 8 {
      assert whole[..kept][4..8] == whole[4..8] == Field(|last.content| / 2);
    }
  }

  /** Cutting a file anywhere inside a record is rejected, with the error that names the cut. */
  lemma {:induction false} CutIsRejected(records: seq<Record>, last: Record, kept: nat, maxRecordBytes: nat)
    requires forall r | r in records :: ValidRecord(r, maxRecordBytes)
    requires ValidRecord(last, maxRecordBytes)
    requires 0 < kept < |Frame(last, maxRecordBytes)|
    ensures CheckRecords(Frames(records, maxRecordBytes) + Frame(last, maxRecordBytes)[..kept], maxRecordBytes)
            == if kept < 8 then RecordHeaderTruncated else RecordTruncated
  {
    var cut := Frame(last, maxRecordBytes)[..kept];
    if records == [] {
      CutFrame(last, kept, maxRecordBytes);
      assert Frames(records, maxRecordBytes) + cut == cut;
    } else {
      CutIsRejected(records[1..], last, kept, maxRecordBytes);
      DropFirst(records, cut, maxRecordBytes);
    }
  }

  lemma DropFirst(records: seq<Record>, cut: Bytes, maxRecordBytes: nat)
    requires records != [] && forall r | r in records :: ValidRecord(r, maxRecordBytes)
    ensures CheckRecords(Frames(records, maxRecordBytes) + cut, maxRecordBytes)
            == CheckRecords(Frames(records[1..], maxRecordBytes) + cut, maxRecordBytes)
  {
    var first, rest := Frame(records[0], maxRecordBytes), Frames(records[1..], maxRecordBytes);
    assert Frames(records, maxRecordBytes) == first + rest;
    Associate(first, rest, cut);
    FirstFrame(records[0], rest + cut, maxRecordBytes);
  }

  lemma Associate(a: Bytes, b: Bytes, c: Bytes)
    ensures a + b + c == a + (b + c)
  {
  }

  /** After whole records, a header whose big-endian length field declares too many 16-bit words is rejected as too large. */
  lemma {:induction false} TooLargeIsRejected(records: seq<Record>, number: Bytes, a: Byte, b: Byte, c: Byte, d: Byte, rest: Bytes, maxRecordBytes: nat)
    requires forall r | r in records :: ValidRecord(r, maxRecordBytes)
    requires |number| == 4 && 2 * (0x100_0000 * a as int + 0x1_0000 * b as int + 0x100 * c as int + d as int) > maxRecordBytes
    ensures CheckRecords(Frames(records, maxRecordBytes) + (number + [a, b, c, d] + rest), maxRecordBytes) == RecordTooLarge
  {
    var bad := number + [a, b, c, d] + rest;
    if records == [] {
      assert Frames(records, maxRecordBytes) + bad == bad && bad[4..8] == [a, b, c, d];
      BigEndianField(a, b, c, d);
    } else {
      TooLargeIsRejected(records[1..], number, a, b, c, d, rest, maxRecordBytes);
      DropFirst(records, bad, maxRecordBytes);
    }
  }
}
