/** Streaming multipart/form-data bodies (section 5.1.1 of RFC 2046). */
module Multipart {
  import opened Options
  import opened ByteStream

  const CR: Byte := 13
  const LF: Byte := 10
  const CRLF: Bytes := [CR, LF]
  const DASHES: Bytes := [45, 45]
  const FILL_BYTES := 8388608
  const MAX_METADATA_BYTES := 4194304

  datatype Error = Ended | BadOpening | MissingName | MetadataTooLarge | BadMetadata | BadSuffix | MissingFile
  datatype Result<+T> = Ok(value: T) | Err(error: Error)
  /** One part: its header lines and its content. */
  datatype Part = Part(headers: seq<Bytes>, content: Bytes)

  /** What the header parser reads off a part's header lines; empty text means absent. */
  datatype Heading = Heading(fieldName: string, filename: string) {
    predicate IsFile() { filename != "" || fieldName == "file" }

    predicate IsMetadata() { !IsFile() && fieldName == "metadata" }
  }

  /** What the JSON decoder finds: no object, or an object, which may itself hold the key of the uploaded file. */
  datatype Metadata = Invalid | Object(namesUpload: bool)

  /** The decoders of header lines and of metadata. */
  datatype Decoding = Decoding(heading: seq<Bytes> -> Heading, metadata: Bytes -> Metadata)
  {
    /** Why a part is refused. */
    function Objection(part: Part): Option<Error> {
      var head := heading(part.headers);
      if !head.IsFile() && |part.content| > MAX_METADATA_BYTES then Some(MetadataTooLarge)
      else if head.IsMetadata() && metadata(part.content) == Invalid then Some(BadMetadata)
      else None
    }

    /** Whether the result holds an uploaded file after this part: the metadata object is merged into it. */
    predicate Uploads(part: Part) {
      heading(part.headers).IsFile() || (heading(part.headers).IsMetadata() && metadata(part.content) == Object(true))
    }
  }

  // ---- First occurrences ----

  predicate OccursAt(text: Bytes, pattern: Bytes, k: int) {
    0 <= k && k + |pattern| <= |text| && text[k..k + |pattern|] == pattern
  }

  /** Index of the first occurrence at or after `from`, or -1. */
  function FindFrom(text: Bytes, pattern: Bytes, from: nat): (index: int)
    ensures index == -1 || (from <= index && OccursAt(text, pattern, index))
    decreases |text| - from
  {
    if from + |pattern| > |text| then -1
    else if text[from..from + |pattern|] == pattern then from
    else FindFrom(text, pattern, from + 1)
  }

  function Find(text: Bytes, pattern: Bytes): int { FindFrom(text, pattern, 0) }

  lemma {:induction false} NothingBefore(text: Bytes, pattern: Bytes, from: nat)
    ensures var index := FindFrom(text, pattern, from);
            forall k | from <= k && (index < 0 || k < index) :: !OccursAt(text, pattern, k)
    decreases |text| - from
  {
    if from + |pattern| <= |text| && text[from..from + |pattern|] != pattern {
      NothingBefore(text, pattern, from + 1);
    }
  }

  lemma FindIsFirst(text: Bytes, pattern: Bytes, k: nat)
    requires OccursAt(text, pattern, k)
    requires forall i | 0 <= i < k :: !OccursAt(text, pattern, i)
    ensures Find(text, pattern) == k
  {
    NothingBefore(text, pattern, 0);
  }

  // ---- Parsing the declared length of the stream as one byte sequence ----

  function TakeLine(rest: Bytes): Option<(Bytes, Bytes)> {
    var index := Find(rest, CRLF);
    if index < 0 then None else Some((rest[..index], rest[index + 2..]))
  }

  function TakePart(rest: Bytes, delimiter: Bytes): Option<(Bytes, Bytes)> {
    var index := Find(rest, delimiter);
    if index < 0 then None else Some((rest[..index], rest[index + |delimiter|..]))
  }

  /** Header lines up to the first empty line. */
  function TakeHeaders(rest: Bytes): (taken: Option<(seq<Bytes>, Bytes)>)
    ensures taken.Some? ==> |taken.value.1| < |rest|
    decreases |rest|
  {
    match TakeLine(rest)
    case None => None
    case Some((line, after)) =>
      if line == [] then Some(([], after))
      else
        match TakeHeaders(after)
        case None => None
        case Some((lines, body)) => Some(([line] + lines, body))
  }

  function Prepend(parts: seq<Part>, result: Result<seq<Part>>): Result<seq<Part>> {
    if result.Ok? then Ok(parts + result.value) else result
  }

  /** What one round of the part loop finds: a part with more to come, the last part, or an error. */
  datatype Round = More(part: Part, rest: Bytes) | Last(part: Part) | Stop(error: Error)

  function NextPart(rest: Bytes, delimiter: Bytes, decoding: Decoding): (round: Round)
    requires delimiter != []
    ensures round.More? ==> |round.rest| < |rest|
  {
    match TakeHeaders(rest)
    case None => Stop(Ended)
    case Some((headers, body)) =>
      if decoding.heading(headers).fieldName == "" then Stop(MissingName)
      else
        match TakePart(body, delimiter)
        case None => Stop(Ended)
        case Some((content, after)) =>
          if decoding.Objection(Part(headers, content)).Some? then Stop(decoding.Objection(Part(headers, content)).value)
          else if |after| < 2 then Stop(Ended)
          else if after[..2] == DASHES then Last(Part(headers, content))
          else if after[..2] != CRLF then Stop(BadSuffix)
          else More(Part(headers, content), after[2..])
  }

  function ParseParts(rest: Bytes, delimiter: Bytes, decoding: Decoding): Result<seq<Part>>
    requires delimiter != []
    decreases |rest|
  {
    match NextPart(rest, delimiter, decoding)
    case Stop(error) => Err(error)
    case Last(part) => Ok([part])
    case More(part, after) => Prepend([part], ParseParts(after, delimiter, decoding))
  }

  function ParseBody(body: Bytes, boundary: Bytes, decoding: Decoding): Result<seq<Part>> {
    match TakeLine(body)
    case None => Err(Ended)
    case Some((opening, rest)) =>
      if opening != DASHES + boundary then Err(BadOpening)
      else
        var result := ParseParts(rest, CRLF + DASHES + boundary, decoding);
        if result.Ok? && !(exists p | p in result.value :: decoding.Uploads(p)) then Err(MissingFile)
        else result
  }

  // ---- The streaming reader ----

  class MultipartReader {
    const stream: Stream
    var buffer: Bytes
    var remaining: int

    constructor (stream: Stream, remaining: int)
      ensures this.stream == stream && buffer == [] && this.remaining == remaining
    {
      this.stream, buffer, this.remaining := stream, [], remaining;
    }

    /** Everything the reader may still return: buffered bytes, then the declared rest of the stream. */
    ghost function Rest(): Bytes
      reads this, stream
    {
      buffer + Declared(stream.data, remaining)
    }

    method Fill() returns (ok: bool)
      modifies this, stream
      ensures Rest() == old(Rest())
      ensures ok ==> |buffer| > |old(buffer)| && old(buffer) <= buffer
      ensures !ok ==> Rest() == buffer == old(buffer)
    {
      if remaining <= 0 {
        return false;
      }
      var chunk := stream.Read(if FILL_BYTES <= remaining then FILL_BYTES else remaining);
      if chunk == [] {
        return false;
      }
      remaining := remaining - |chunk|;
      buffer := buffer + chunk;
      assert Declared(old(stream.data), old(remaining)) == chunk + Declared(stream.data, remaining);
      return true;
    }

    method Read(size: nat) returns (value: Option<Bytes>)
      modifies this, stream
      ensures value == if size <= |old(Rest())| then Some(old(Rest())[..size]) else None
      ensures value.Some? ==> Rest() == old(Rest())[size..]
    {
      ghost var whole := Rest();
      while |buffer| < size
        invariant Rest() == whole
        decreases |whole| - |buffer|
      {
        var ok := Fill();
        if !ok {
          return None;
        }
      }
      assert buffer[..size] == whole[..size];
      value := Some(buffer[..size]);
      buffer := buffer[size..];
      assert Rest() == whole[size..];
    }

    method ReadLine() returns (line: Option<Bytes>)
      modifies this, stream
      ensures match TakeLine(old(Rest()))
              case None => line == None
              case Some((taken, after)) => line == Some(taken) && Rest() == after
    {
      ghost var whole := Rest();
      while Find(buffer, CRLF) < 0
        invariant Rest() == whole
        decreases |whole| - |buffer|
      {
        var ok := Fill();
        if !ok {
          return None;
        }
      }
      var index := Find(buffer, CRLF);
      FindInPrefix(buffer, Declared(stream.data, remaining), CRLF);
      assert buffer[..index] == whole[..index];
      line := Some(buffer[..index]);
      buffer := buffer[index + 2..];
      assert Rest() == whole[index + 2..];
    }

    /** Reads header lines up to the first empty line. */
    method ReadHeaders() returns (headers: Option<seq<Bytes>>)
      modifies this, stream
      ensures match TakeHeaders(old(Rest()))
              case None => headers == None
              case Some((lines, body)) => headers == Some(lines) && Rest() == body
    {
      ghost var whole := Rest();
      var lines: seq<Bytes> := [];
      NoLinesYet(TakeHeaders(whole));
      while true
        invariant |Rest()| <= |whole|
        invariant TakeHeaders(whole) == WithLines(lines, TakeHeaders(Rest()))
        decreases |Rest()|
      {
        ghost var before := Rest();
        var line := ReadLine();
        if line.None? {
          return None;
        }
        if line.value == [] {
          assert TakeHeaders(before) == Some(([], Rest())) && lines + [] == lines;
          return Some(lines);
        }
        OneMoreLine(lines, line.value, before, Rest());
        lines := lines + [line.value];
      }
    }

    /** Copies bytes to the sink up to the first delimiter, keeping only a delimiter's
        worth of bytes buffered while it searches. */
    method ReadPart(delimiter: Bytes) returns (found: bool, sink: Bytes)
      requires |delimiter| >= 2
      modifies this, stream
      ensures match TakePart(old(Rest()), delimiter)
              case None => !found
              case Some((content, after)) => found && sink == content && Rest() == after
    {
      var keep := |delimiter| - 1;
      sink := [];
      ghost var whole := Rest();
      NothingSunk(TakePart(whole, delimiter));
      while true
        invariant TakePart(whole, delimiter) == WithSunk(sink, TakePart(Rest(), delimiter))
        decreases |Rest()|, |Rest()| - |buffer|
      {
        ghost var rest, tail := Rest(), Declared(stream.data, remaining);
        var index := Find(buffer, delimiter);
        if index >= 0 {
          FoundPart(buffer, tail, delimiter);
          sink := sink + buffer[..index];
          buffer := buffer[index + |delimiter|..];
          return true, sink;
        }
        if |buffer| > keep {
          var cut := |buffer| - keep;
          FlushPart(buffer, tail, cut, delimiter);
          SinkMore(sink, buffer[..cut], TakePart(buffer[cut..] + tail, delimiter));
          sink := sink + buffer[..cut];
          buffer := buffer[cut..];
        }
        var ok := Fill();
        if !ok {
          return false, sink;
        }
      }
    }
  }

  /** What a round hands to the loop; the bytes that remain stay in the reader. */
  datatype Found = Found(part: Part, last: bool) | Failed(error: Error)

  method ReadRound(reader: MultipartReader, delimiter: Bytes, decoding: Decoding) returns (found: Found)
    requires |delimiter| >= 2
    modifies reader, reader.stream
    ensures match NextPart(old(reader.Rest()), delimiter, decoding)
            case Stop(error) => found == Failed(error)
            case Last(part) => found == Found(part, true)
            case More(part, rest) => found == Found(part, false) && reader.Rest() == rest
  {
    var lines := reader.ReadHeaders();
    if lines.None? {
      return Failed(Ended);
    }
    var headers := lines.value;
    if decoding.heading(headers).fieldName == "" {
      return Failed(MissingName);
    }
    var present, content := reader.ReadPart(delimiter);
    if !present {
      return Failed(Ended);
    }
    var head := decoding.heading(headers);
    if !head.IsFile() && |content| > MAX_METADATA_BYTES {
      return Failed(MetadataTooLarge);
    }
    if !head.IsFile() && head.fieldName == "metadata" && decoding.metadata(content) == Invalid {
      return Failed(BadMetadata);
    }
    var suffix := reader.Read(2);
    if suffix.None? {
      return Failed(Ended);
    }
    if suffix.value == DASHES {
      return Found(Part(headers, content), true);
    }
    if suffix.value != CRLF {
      return Failed(BadSuffix);
    }
    return Found(Part(headers, content), false);
  }

  function WithLines(lines: seq<Bytes>, taken: Option<(seq<Bytes>, Bytes)>): Option<(seq<Bytes>, Bytes)> {
    if taken.None? then None else Some((lines + taken.value.0, taken.value.1))
  }

  lemma NoLinesYet(taken: Option<(seq<Bytes>, Bytes)>)
    ensures WithLines([], taken) == taken
  {
    if taken.Some? { assert [] + taken.value.0 == taken.value.0; }
  }

  lemma OneMoreLine(lines: seq<Bytes>, line: Bytes, before: Bytes, after: Bytes)
    requires TakeLine(before) == Some((line, after)) && line != []
    ensures WithLines(lines, TakeHeaders(before)) == WithLines(lines + [line], TakeHeaders(after))
  {
    var taken := TakeHeaders(after);
    if taken.Some? {
      assert lines + ([line] + taken.value.0) == (lines + [line]) + taken.value.0;
    }
  }

  function WithSunk(sunk: Bytes, taken: Option<(Bytes, Bytes)>): Option<(Bytes, Bytes)> {
    if taken.None? then None else Some((sunk + taken.value.0, taken.value.1))
  }

  lemma NothingSunk(taken: Option<(Bytes, Bytes)>)
    ensures WithSunk([], taken) == taken
  {
    if taken.Some? { assert [] + taken.value.0 == taken.value.0; }
  }

  lemma SinkMore(sunk: Bytes, more: Bytes, taken: Option<(Bytes, Bytes)>)
    ensures WithSunk(sunk, WithSunk(more, taken)) == WithSunk(sunk + more, taken)
  {
    if taken.Some? { assert sunk + (more + taken.value.0) == (sunk + more) + taken.value.0; }
  }

  function Declared(data: Bytes, remaining: int): Bytes {
    if remaining <= 0 then [] else if remaining < |data| then data[..remaining] else data
  }

  lemma FindInPrefix(buffer: Bytes, tail: Bytes, pattern: Bytes)
    requires Find(buffer, pattern) >= 0
    ensures Find(buffer + tail, pattern) == Find(buffer, pattern)
  {
    var index := Find(buffer, pattern);
    NothingBefore(buffer, pattern, 0);
    forall k | 0 <= k <= index
      ensures OccursAt(buffer + tail, pattern, k) <==> OccursAt(buffer, pattern, k)
    {
      assert (buffer + tail)[k..k + |pattern|] == buffer[k..k + |pattern|];
    }
    FindIsFirst(buffer + tail, pattern, index);
  }

  lemma FitsPrefix(text: Bytes, tail: Bytes, pattern: Bytes, k: nat)
    requires k + |pattern| <= |text|
    ensures OccursAt(text + tail, pattern, k) <==> OccursAt(text, pattern, k)
  {
    assert (text + tail)[k..k + |pattern|] == text[k..k + |pattern|];
  }

  lemma ShiftOccurrence(front: Bytes, text: Bytes, pattern: Bytes, k: nat)
    ensures OccursAt(front + text, pattern, |front| + k) <==> OccursAt(text, pattern, k)
  {
    if k + |pattern| <= |text| {
      assert (front + text)[|front| + k..|front| + k + |pattern|] == text[k..k + |pattern|];
    }
  }

  lemma FoundPart(buffer: Bytes, tail: Bytes, delimiter: Bytes)
    requires Find(buffer, delimiter) >= 0
    ensures var index := Find(buffer, delimiter);
            TakePart(buffer + tail, delimiter) == Some((buffer[..index], buffer[index + |delimiter|..] + tail))
  {
    var index := Find(buffer, delimiter);
    FindInPrefix(buffer, tail, delimiter);
    assert (buffer + tail)[..index] == buffer[..index];
    assert (buffer + tail)[index + |delimiter|..] == buffer[index + |delimiter|..] + tail;
  }

  /** Where no delimiter starts, the search can begin later. */
  lemma SkipFront(front: Bytes, text: Bytes, pattern: Bytes)
    requires forall k | 0 <= k < |front| :: !OccursAt(front + text, pattern, k)
    ensures Find(front + text, pattern) == if Find(text, pattern) < 0 then -1 else |front| + Find(text, pattern)
  {
    var whole, index := front + text, Find(text, pattern);
    NothingBefore(text, pattern, 0);
    NothingBefore(whole, pattern, 0);
    forall k: nat
      ensures OccursAt(whole, pattern, |front| + k) <==> OccursAt(text, pattern, k)
    {
      ShiftOccurrence(front, text, pattern, k);
    }
    var found := Find(whole, pattern);
    if found >= 0 {
      assert OccursAt(text, pattern, found - |front|);
    }
    if index >= 0 {
      assert OccursAt(whole, pattern, |front| + index);
    }
  }

  /** A delimiter not yet in the buffer can start only in its last |delimiter| - 1 bytes. */
  lemma FlushPart(buffer: Bytes, tail: Bytes, cut: nat, delimiter: Bytes)
    requires Find(buffer, delimiter) < 0 && delimiter != [] && cut == |buffer| - (|delimiter| - 1)
    ensures TakePart(buffer + tail, delimiter) == WithSunk(buffer[..cut], TakePart(buffer[cut..] + tail, delimiter))
  {
    var front, rest := buffer[..cut], buffer[cut..] + tail;
    assert buffer + tail == front + rest;
    NothingInFront(buffer, tail, front, rest, delimiter);
    SkipFront(front, rest, delimiter);
    SplitAfter(front, rest, Find(rest, delimiter), |delimiter|);
  }

  lemma NothingInFront(buffer: Bytes, tail: Bytes, front: Bytes, rest: Bytes, delimiter: Bytes)
    requires Find(buffer, delimiter) < 0 && delimiter != [] && |front| == |buffer| - (|delimiter| - 1)
    requires buffer + tail == front + rest
    ensures forall k | 0 <= k < |front| :: !OccursAt(front + rest, delimiter, k)
  {
    NothingBefore(buffer, delimiter, 0);
    forall k | 0 <= k < |front|
      ensures !OccursAt(front + rest, delimiter, k)
    {
      FitsPrefix(buffer, tail, delimiter, k);
    }
  }

  lemma SplitAfter(front: Bytes, rest: Bytes, index: int, width: nat)
    requires index + width <= |rest|
    ensures index >= 0 ==> (front + rest)[..|front| + index] == front + rest[..index]
                           && (front + rest)[|front| + index + width..] == rest[index + width..]
  {
  }

  method ReadParts(reader: MultipartReader, delimiter: Bytes, decoding: Decoding)
    returns (result: Result<seq<Part>>)
    requires |delimiter| >= 2
    modifies reader, reader.stream
    ensures result == ParseParts(old(reader.Rest()), delimiter, decoding)
  {
    ghost var parsed := ParseParts(reader.Rest(), delimiter, decoding);
    var parts: seq<Part> := [];
    assert parsed.Ok? ==> [] + parsed.value == parsed.value;
    while true
      invariant parsed == Prepend(parts, ParseParts(reader.Rest(), delimiter, decoding))
      decreases |reader.Rest()|
    {
      var found := ReadRound(reader, delimiter, decoding);
      if found.Failed? {
        return Err(found.error);
      }
      if found.last {
        return Ok(parts + [found.part]);
      }
      PrependMore(parts, found.part, ParseParts(reader.Rest(), delimiter, decoding));
      parts := parts + [found.part];
    }
  }

  /** Parses a request body of the declared length, however the stream splits it. */
  method ReadMultipart(stream: Stream, length: nat, boundary: Bytes, decoding: Decoding)
    returns (result: Result<seq<Part>>)
    modifies stream
    ensures result == ParseBody(Declared(old(stream.data), length), boundary, decoding)
  {
    ghost var body := Declared(stream.data, length);
    var reader := new MultipartReader(stream, length);
    assert reader.Rest() == body;
    var opening := reader.ReadLine();
    if opening.None? {
      return Err(Ended);
    }
    if opening.value != DASHES + boundary {
      return Err(BadOpening);
    }
    var delimiter := CRLF + DASHES + boundary;
    result := ReadParts(reader, delimiter, decoding);
    if result.Ok? && !(exists p | p in result.value :: decoding.Uploads(p)) {
      return Err(MissingFile);
    }
  }

  lemma PrependMore(parts: seq<Part>, part: Part, result: Result<seq<Part>>)
    ensures Prepend(parts, Prepend([part], result)) == Prepend(parts + [part], result)
  {
    if result.Ok? {
      assert parts + ([part] + result.value) == (parts + [part]) + result.value;
    }
  }

  // ---- Printing ----

  function PrintHeaders(headers: seq<Bytes>): Bytes {
    if headers == [] then CRLF else headers[0] + CRLF + PrintHeaders(headers[1..])
  }

  function PrintParts(parts: seq<Part>, delimiter: Bytes): Bytes
    requires parts != []
    decreases parts, 1
  {
    PrintHeaders(parts[0].headers) + (parts[0].content + delimiter + Trailer(parts, delimiter))
  }

  /** What follows the delimiter that closes the first part. */
  function Trailer(parts: seq<Part>, delimiter: Bytes): Bytes
    requires parts != []
    decreases parts, 0
  {
    if |parts| == 1 then DASHES else CRLF + PrintParts(parts[1..], delimiter)
  }

  function PrintBody(parts: seq<Part>, boundary: Bytes): Bytes
    requires parts != []
  {
    DASHES + boundary + CRLF + PrintParts(parts, CRLF + DASHES + boundary)
  }

  ghost predicate Free(text: Bytes, pattern: Bytes) { forall k :: !OccursAt(text, pattern, k) }

  /** Parts that a body may hold: named, apart from the delimiter, and unless it is a file at most 4 MiB and,
      as metadata, an object. */
  ghost predicate Printable(part: Part, delimiter: Bytes, decoding: Decoding) {
    var head := decoding.heading(part.headers);
    && (forall line | line in part.headers :: line != [] && Free(line, CRLF))
    && Free(part.content, delimiter) && head.fieldName != ""
    && (head.filename == "" && head.fieldName != "file" ==>
          |part.content| <= 4 * 1024 * 1024 && (head.fieldName == "metadata" ==> decoding.metadata(part.content).Object?))
  }

  /** A file, or a metadata object that names one. */
  ghost predicate BringsFile(part: Part, decoding: Decoding) {
    var head := decoding.heading(part.headers);
    head.filename != "" || head.fieldName == "file" || (head.fieldName == "metadata" && decoding.metadata(part.content) == Object(true))
  }

  /** A delimiter that holds its first byte only once cannot overlap a copy of itself. */
  lemma FirstDelimiter(content: Bytes, delimiter: Bytes, after: Bytes)
    requires Free(content, delimiter) && delimiter != []
    requires forall k | 0 < k < |delimiter| :: delimiter[k] != delimiter[0]
    ensures TakePart(content + delimiter + after, delimiter) == Some((content, after))
  {
    var text := content + delimiter + after;
    assert text[|content|..|content| + |delimiter|] == delimiter;
    forall k | 0 <= k < |content|
      ensures !OccursAt(text, delimiter, k)
    {
      if k + |delimiter| <= |content| {
        assert text[k..k + |delimiter|] == content[k..k + |delimiter|];
        assert !OccursAt(content, delimiter, k);
      } else if k + |delimiter| <= |text| {
        assert text[k..k + |delimiter|][|content| - k] == text[|content|] == delimiter[0];
      }
    }
    FindIsFirst(text, delimiter, |content|);
    assert text[..|content|] == content && text[|content| + |delimiter|..] == after;
  }

  lemma FirstLine(line: Bytes, after: Bytes)
    requires Free(line, CRLF)
    ensures TakeLine(line + CRLF + after) == Some((line, after))
  {
    FirstDelimiter(line, CRLF, after);
  }

  lemma {:induction false} HeadersRoundTrip(text: Bytes, headers: seq<Bytes>, after: Bytes)
    requires text == PrintHeaders(headers) + after
    requires forall line | line in headers :: line != [] && Free(line, CRLF)
    ensures TakeHeaders(text) == Some((headers, after))
    decreases |headers|
  {
    if headers == [] {
      FirstLine([], after);
      assert text == [] + CRLF + after;
    } else {
      var rest := PrintHeaders(headers[1..]) + after;
      assert headers[0] in headers && forall line | line in headers[1..] :: line in headers;
      HeadersRoundTrip(rest, headers[1..], after);
      FirstHeader(text, headers, after);
      OneHeader(text, headers[0], rest, headers[1..], after);
      assert [headers[0]] + headers[1..] == headers;
    }
  }

  lemma FirstHeader(text: Bytes, headers: seq<Bytes>, after: Bytes)
    requires headers != [] && text == PrintHeaders(headers) + after && Free(headers[0], CRLF)
    ensures TakeLine(text) == Some((headers[0], PrintHeaders(headers[1..]) + after))
  {
    var rest := PrintHeaders(headers[1..]) + after;
    assert text == headers[0] + CRLF + rest;
    FirstLine(headers[0], rest);
  }

  lemma OneHeader(text: Bytes, line: Bytes, rest: Bytes, lines: seq<Bytes>, after: Bytes)
    requires TakeLine(text) == Some((line, rest)) && line != []
    requires TakeHeaders(rest) == Some((lines, after))
    ensures TakeHeaders(text) == Some(([line] + lines, after))
  {
  }

  lemma OnePart(part: Part, delimiter: Bytes, after: Bytes, decoding: Decoding)
    requires delimiter != [] && forall k | 0 < k < |delimiter| :: delimiter[k] != delimiter[0]
    requires Printable(part, delimiter, decoding) && |after| >= 2 && (after[..2] == DASHES || after[..2] == CRLF)
    ensures NextPart(PrintHeaders(part.headers) + (part.content + delimiter + after), delimiter, decoding)
            == if after[..2] == DASHES then Last(part) else More(part, after[2..])
  {
    var body := part.content + delimiter + after;
    HeadersRoundTrip(PrintHeaders(part.headers) + body, part.headers, body);
    FirstDelimiter(part.content, delimiter, after);
  }

  lemma {:induction false} PartsRoundTrip(text: Bytes, parts: seq<Part>, delimiter: Bytes, epilogue: Bytes,
                                          decoding: Decoding)
    requires parts != [] && delimiter != [] && text == PrintParts(parts, delimiter) + epilogue
    requires forall k | 0 < k < |delimiter| :: delimiter[k] != delimiter[0]
    requires forall part | part in parts :: Printable(part, delimiter, decoding)
    ensures ParseParts(text, delimiter, decoding) == Ok(parts)
    decreases |parts|
  {
    var rest := FirstPart(text, parts, delimiter, epilogue, decoding);
    if |parts| > 1 {
      assert forall part | part in parts[1..] :: part in parts;
      PartsRoundTrip(rest, parts[1..], delimiter, epilogue, decoding);
    }
    ParseStep(text, parts, rest, delimiter, decoding);
  }

  lemma FirstPart(text: Bytes, parts: seq<Part>, delimiter: Bytes, epilogue: Bytes, decoding: Decoding)
    returns (rest: Bytes)
    requires parts != [] && delimiter != [] && text == PrintParts(parts, delimiter) + epilogue
    requires forall k | 0 < k < |delimiter| :: delimiter[k] != delimiter[0]
    requires Printable(parts[0], delimiter, decoding)
    ensures |parts| == 1 ==> NextPart(text, delimiter, decoding) == Last(parts[0])
    ensures |parts| > 1 ==> NextPart(text, delimiter, decoding) == More(parts[0], rest)
                            && rest == PrintParts(parts[1..], delimiter) + epilogue
  {
    var part, after := parts[0], Trailer(parts, delimiter) + epilogue;
    Regroup(PrintHeaders(part.headers), part.content, delimiter, Trailer(parts, delimiter), epilogue);
    TrailerRest(parts, delimiter, epilogue);
    OnePart(part, delimiter, after, decoding);
    rest := after[2..];
  }

  lemma ParseStep(text: Bytes, parts: seq<Part>, rest: Bytes, delimiter: Bytes, decoding: Decoding)
    requires parts != [] && delimiter != []
    requires NextPart(text, delimiter, decoding) == if |parts| == 1 then Last(parts[0]) else More(parts[0], rest)
    requires |parts| > 1 ==> ParseParts(rest, delimiter, decoding) == Ok(parts[1..])
    ensures ParseParts(text, delimiter, decoding) == Ok(parts)
  {
    assert parts == [parts[0]] + parts[1..];
    if |parts| == 1 { assert parts == [parts[0]]; }
  }

  lemma TrailerRest(parts: seq<Part>, delimiter: Bytes, epilogue: Bytes)
    requires parts != []
    ensures var after := Trailer(parts, delimiter) + epilogue;
            |after| >= 2 && (if |parts| == 1 then after[..2] == DASHES
                             else after[..2] == CRLF && after[2..] == PrintParts(parts[1..], delimiter) + epilogue)
  {
    var after := Trailer(parts, delimiter) + epilogue;
    assert after[..2] == Trailer(parts, delimiter)[..2];
  }

  lemma Regroup(a: Bytes, b: Bytes, c: Bytes, d: Bytes, e: Bytes)
    ensures (a + (b + c + d)) + e == a + (b + c + (d + e))
  {
  }

  /** Printing parts under a CR-free boundary and parsing the body, whatever follows
      it, returns exactly those parts. */
  lemma BodyRoundTrip(parts: seq<Part>, boundary: Bytes, epilogue: Bytes, decoding: Decoding)
    requires parts != [] && CR !in boundary
    requires forall part | part in parts :: Printable(part, CRLF + DASHES + boundary, decoding)
    requires exists part | part in parts :: BringsFile(part, decoding)
    ensures ParseBody(PrintBody(parts, boundary) + epilogue, boundary, decoding) == Ok(parts)
  {
    var delimiter := CRLF + DASHES + boundary;
    var rest := PrintParts(parts, delimiter) + epilogue;
    assert PrintBody(parts, boundary) + epilogue == (DASHES + boundary) + CRLF + rest;
    assert Free(DASHES + boundary, CRLF) by {
      var opening := DASHES + boundary;
      forall k ensures !OccursAt(opening, CRLF, k) {
        if 0 <= k && k + 2 <= |opening| {
          assert opening[k] != CR && opening[k..k + 2][0] == opening[k];
        }
      }
    }
    FirstLine(DASHES + boundary, rest);
    PartsRoundTrip(rest, parts, delimiter, epilogue, decoding);
  }

  // ---- What is parsed was printed ----

  lemma FirstOccurrence(text: Bytes, pattern: Bytes, content: Bytes, after: Bytes)
    requires pattern != [] && TakePart(text, pattern) == Some((content, after))
    ensures text == content + pattern + after && Free(content, pattern)
  {
    var index := Find(text, pattern);
    NothingBefore(text, pattern, 0);
    assert text == text[..index] + text[index..index + |pattern|] + text[index + |pattern|..];
    forall k
      ensures !OccursAt(content, pattern, k)
    {
      if OccursAt(content, pattern, k) { FitsPrefix(content, pattern + after, pattern, k); }
      assert content + (pattern + after) == text;
    }
  }

  lemma {:induction false} HeadersWerePrinted(text: Bytes, headers: seq<Bytes>, after: Bytes)
    requires TakeHeaders(text) == Some((headers, after))
    ensures text == PrintHeaders(headers) + after && forall line | line in headers :: line != [] && Free(line, CRLF)
    decreases |headers|
  {
    var (line, rest) := TakeLine(text).value;
    FirstOccurrence(text, CRLF, line, rest);
    if line != [] {
      HeadersWerePrinted(rest, TakeHeaders(rest).value.0, after);
      assert headers == [line] + TakeHeaders(rest).value.0 && headers[1..] == TakeHeaders(rest).value.0;
      assert line + CRLF + (PrintHeaders(headers[1..]) + after) == line + CRLF + PrintHeaders(headers[1..]) + after;
    }
  }

  /** One round took a printed part off the text, and its ending. */
  lemma PartWasPrinted(text: Bytes, part: Part, delimiter: Bytes, decoding: Decoding) returns (after: Bytes)
    requires delimiter != [] && var round := NextPart(text, delimiter, decoding); !round.Stop? && round.part == part
    ensures Printable(part, delimiter, decoding) && |after| >= 2
    ensures text == PrintHeaders(part.headers) + (part.content + delimiter + after)
    ensures NextPart(text, delimiter, decoding) == if after[..2] == DASHES then Last(part) else More(part, after[2..])
    ensures after[..2] == DASHES || after[..2] == CRLF
  {
    var (headers, body) := TakeHeaders(text).value;
    var (content, ending) := TakePart(body, delimiter).value;
    after := ending;
    HeadersWerePrinted(text, headers, body);
    FirstOccurrence(body, delimiter, content, ending);
  }

  lemma {:induction false} PartsWerePrinted(text: Bytes, parts: seq<Part>, delimiter: Bytes, decoding: Decoding) returns (epilogue: Bytes)
    requires delimiter != [] && ParseParts(text, delimiter, decoding) == Ok(parts)
    ensures parts != [] && text == PrintParts(parts, delimiter) + epilogue
    ensures forall part | part in parts :: Printable(part, delimiter, decoding)
    decreases |text|
  {
    var first := NextPart(text, delimiter, decoding).part;
    var after := PartWasPrinted(text, first, delimiter, decoding);
    if after[..2] == DASHES {
      epilogue := after[2..];
      assert parts == [first] && after == Trailer(parts, delimiter) + epilogue;
    } else {
      var rest := ParseParts(after[2..], delimiter, decoding).value;
      epilogue := PartsWerePrinted(after[2..], rest, delimiter, decoding);
      assert parts == [first] + rest && parts[1..] == rest;
      assert after == after[..2] + after[2..];
      Associative(CRLF, PrintParts(rest, delimiter), epilogue);
      assert after == Trailer(parts, delimiter) + epilogue;
    }
    Regroup(PrintHeaders(first.headers), first.content, delimiter, Trailer(parts, delimiter), epilogue);
  }

  lemma Associative(a: Bytes, b: Bytes, c: Bytes)
    ensures a + (b + c) == (a + b) + c
  {
  }

  lemma BodyWasPrinted(body: Bytes, parts: seq<Part>, boundary: Bytes, decoding: Decoding) returns (epilogue: Bytes)
    requires ParseBody(body, boundary, decoding) == Ok(parts)
    ensures parts != [] && body == PrintBody(parts, boundary) + epilogue
    ensures forall part | part in parts :: Printable(part, CRLF + DASHES + boundary, decoding)
    ensures exists part | part in parts :: BringsFile(part, decoding)
  {
    var (opening, rest) := TakeLine(body).value;
    FirstOccurrence(body, CRLF, opening, rest);
    epilogue := PartsWerePrinted(rest, parts, CRLF + DASHES + boundary, decoding);
    Associative(opening + CRLF, PrintParts(parts, CRLF + DASHES + boundary), epilogue);
    var part :| part in parts && decoding.Uploads(part);
    assert BringsFile(part, decoding);
  }

  /** Under a CR-free boundary a body parses to these parts exactly when it is their print, whatever follows it, each of them
      may be in a body, and one of them brings a file. */
  lemma ParsedExactly(body: Bytes, parts: seq<Part>, boundary: Bytes, decoding: Decoding)
    requires CR !in boundary
    ensures ParseBody(body, boundary, decoding) == Ok(parts)
            <==> && parts != [] && (exists epilogue :: body == PrintBody(parts, boundary) + epilogue)
                 && (forall part | part in parts :: Printable(part, CRLF + DASHES + boundary, decoding))
                 && exists part | part in parts :: BringsFile(part, decoding)
  {
    if ParseBody(body, boundary, decoding) == Ok(parts) {
      var epilogue := BodyWasPrinted(body, parts, boundary, decoding);
    } else if parts != [] && (forall part | part in parts :: Printable(part, CRLF + DASHES + boundary, decoding))
              && (exists part | part in parts :: BringsFile(part, decoding)) {
      forall epilogue | body == PrintBody(parts, boundary) + epilogue
        ensures false
      {
        BodyRoundTrip(parts, boundary, epilogue, decoding);
      }
    }
  }

  /** The streaming parser returns the printed parts under every splitting of the stream. */
  method ReadPrinted(parts: seq<Part>, boundary: Bytes, epilogue: Bytes, decoding: Decoding, wholeReads: nat)
    returns (result: Result<seq<Part>>)
    requires parts != [] && CR !in boundary
    requires forall part | part in parts :: Printable(part, CRLF + DASHES + boundary, decoding)
    requires exists part | part in parts :: BringsFile(part, decoding)
    ensures result == Ok(parts)
  {
    var body := PrintBody(parts, boundary) + epilogue;
    var stream := new Stream(body, wholeReads);
    result := ReadMultipart(stream, |body|, boundary, decoding);
    BodyRoundTrip(parts, boundary, epilogue, decoding);
  }
}
