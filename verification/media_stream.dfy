/**
 * The media stream route `GET /recordings/{id}/stream`: which status and
 * `Content-Range` it answers with (sections 4.2 and 4.4 of RFC 7233) and
 * the chunked copy of the selected bytes into the response.
 */
module MediaStream {
  import opened Wrappers
  import opened Models
  import opened Text
  import opened RangeHeader
  import opened RecordingRepository
  import Routes = RecordingRoutes

  /** The response body is written in pieces of at most 64 KiB. */
  const StreamChunkSize: nat := 64 * 1024

  type Byte = x: int | 0 <= x < 256

  /** Status line and headers decided before any byte of the body is sent. */
  datatype StreamHead = StreamHead(status: int, contentRange: Option<string>, span: Option<ByteRange>)

  /** `Content-Range` of a satisfiable request: "bytes <first>-<last>/<size>". */
  function SatisfiedContentRange(r: ByteRange, fileSize: nat): string {
    "bytes " + NatToString(r.start) + "-" + NatToString(r.end) + "/" + NatToString(fileSize)
  }

  // `Content-Range` of an unsatisfiable request: "bytes */<size>".
  function UnsatisfiedContentRange(fileSize: nat): string {
    "bytes */" + NatToString(fileSize)
  }

  /**
   * How the route's lookup of the recording ended: an exception reached the
   * catch-all handler (the identity did not convert, or the read threw), or
   * the read answered that no recording, or a recording, has the identity.
   */
  datatype Lookup = LookupThrew | NoRecording | RecordingFound

  /**
   * The lookup the route starts with: `std::stoll` of the identity, then
   * `findById`, whose read completes when `readOk` holds. It ends the way
   * `GET /recordings/<id>` does on the same identity.
   */
  function LookUp(repo: Repository, readOk: bool, idText: string): (l: Lookup)
    requires Valid(repo)
    ensures l.LookupThrew? <==> Routes.FetchRecording(repo, readOk, idText).status == 500
    ensures l.NoRecording? <==> Routes.FetchRecording(repo, readOk, idText).status == 404
    ensures l.RecordingFound? <==> Routes.FetchRecording(repo, readOk, idText).Fetched?
  {
    match Stoll(idText)
    case Failure(_) => LookupThrew
    case Success(id) =>
      if !readOk then LookupThrew
      else if FindById(repo, id).None? then NoRecording
      else RecordingFound
  }

  /** The file can be served: the recording exists and its file exists and is not empty. */
  predicate Servable(lookup: Lookup, fileSize: Option<U64>) {
    lookup.RecordingFound? && fileSize.Some? && fileSize.value > 0
  }

  /**
   * The route's decision. `lookup` is how looking the recording up ended,
   * `fileSize` the size of its media file (None when the file does not
   * exist) and `rangeHeader` the `Range` value, "" when absent. A failed
   * lookup is 500; a missing recording, a missing file and an empty file are
   * all 404; with no `Range` the whole file is sent with 200; a `Range` value
   * the parser refuses is answered 416, never ignored; an accepted one is
   * answered 206 over the parsed span. Each `Content-Range` reads back as
   * the span and size it announces.
   */
  function StreamRoute(lookup: Lookup, fileSize: Option<U64>, rangeHeader: string): (head: StreamHead)
    ensures head.status == 500 <==> lookup.LookupThrew?
    ensures head.status == 404 <==> !lookup.LookupThrew? && !Servable(lookup, fileSize)
    ensures head.status == 200 <==> Servable(lookup, fileSize) && rangeHeader == []
    ensures head.status == 416 <==>
              Servable(lookup, fileSize) && rangeHeader != [] && ParseRangeHeader(rangeHeader, fileSize.value).None?
    ensures head.status == 206 <==>
              Servable(lookup, fileSize) && rangeHeader != [] && ParseRangeHeader(rangeHeader, fileSize.value).Some?
    ensures head.span.Some? <==> head.status == 200 || head.status == 206
    ensures head.span.Some? ==> head.span.value.start <= head.span.value.end < fileSize.value
    ensures head.status == 200 ==> head.span == Some(ByteRange(0, fileSize.value - 1))
    ensures head.status == 206 ==> head.span == ParseRangeHeader(rangeHeader, fileSize.value)
    ensures head.contentRange.Some? <==> head.status == 206 || head.status == 416
    ensures head.status == 206 ==>
              && head.contentRange == Some(SatisfiedContentRange(head.span.value, fileSize.value))
              && ParseContentRange(head.contentRange.value)
                 == Some(Satisfied(head.span.value.start, head.span.value.end, fileSize.value))
    ensures head.status == 416 ==>
              && head.contentRange == Some(UnsatisfiedContentRange(fileSize.value))
              && ParseContentRange(head.contentRange.value) == Some(Unsatisfied(fileSize.value))
  {
    if lookup.LookupThrew? then
      StreamHead(500, None, None)
    else if !Servable(lookup, fileSize) then
      StreamHead(404, None, None)
    else if rangeHeader == [] then
      StreamHead(200, None, Some(ByteRange(0, fileSize.value - 1)))
    else match ParseRangeHeader(rangeHeader, fileSize.value)
      case None =>
        UnsatisfiedContentRangeReadsBack(fileSize.value);
        StreamHead(416, Some(UnsatisfiedContentRange(fileSize.value)), None)
      case Some(r) =>
        SatisfiedContentRangeReadsBack(r, fileSize.value);
        StreamHead(206, Some(SatisfiedContentRange(r, fileSize.value)), Some(r))
  }

  /** A `Content-Range` value as a client reads it. */
  datatype ContentRangeValue =
    | Satisfied(first: nat, last: nat, completeLength: nat)
    | Unsatisfied(completeLength: nat)

  /** A leading run of digits and what follows it, or None when there is no digit. */
  function ReadNumber(s: string): Option<(nat, string)> {
    var n := DigitRun(s);
    if n == 0 then None else Some((DigitsValue(s[..n]), s[n..]))
  }

  // Reads "bytes <first>-<last>/<length>" or "bytes */<length>", decimal
  // numbers only and nothing after the length (section 4.2 of RFC 7233).
  function ParseContentRange(s: string): Option<ContentRangeValue> {
    if !StartsWith(s, "bytes ") then None
    else
      var rest := s[6..];
      if |rest| >= 2 && rest[0] == '*' && rest[1] == '/' then
        match ReadLength(rest[2..])
        case Some(length) => Some(Unsatisfied(length))
        case None => None
      else ReadSpan(rest)
  }

  /** "<length>" and nothing after it. */
  function ReadLength(s: string): Option<nat> {
    match ReadNumber(s)
    case Some((length, tail)) => if tail == [] then Some(length) else None
    case None => None
  }

  /** A number, then `separator`, then what follows the separator. */
  function ReadNumberThen(s: string, separator: char): Option<(nat, string)> {
    match ReadNumber(s)
    case None => None
    case Some((n, after)) => if |after| == 0 || after[0] != separator then None else Some((n, after[1..]))
  }

  /** "<first>-<last>/<length>". */
  function ReadSpan(s: string): Option<ContentRangeValue> {
    match ReadNumberThen(s, '-')
    case None => None
    case Some((first, afterFirst)) =>
      match ReadNumberThen(afterFirst, '/')
      case None => None
      case Some((last, afterLast)) =>
        match ReadLength(afterLast)
        case None => None
        case Some(length) => Some(Satisfied(first, last, length))
  }

  lemma {:induction false} ReadNumberAfterNatToString(n: nat, rest: string)
    requires rest == [] || !IsDigit(rest[0])
    ensures ReadNumber(NatToString(n) + rest) == Some((n, rest))
  {
    var d := NatToString(n);
    DigitRunOfPrefix(d, rest);
    assert (d + rest)[..|d|] == d;
    assert (d + rest)[|d|..] == rest;
    NatToStringValue(n);
  }

  /** A number written by `to_string` followed by `separator` is read as that number. */
  lemma {:induction false} ReadNumberThenSeparator(n: nat, separator: char, rest: string)
    requires !IsDigit(separator)
    ensures ReadNumberThen(NatToString(n) + ([separator] + rest), separator) == Some((n, rest))
  {
    ReadNumberAfterNatToString(n, [separator] + rest);
    assert ([separator] + rest)[1..] == rest;
  }

  /** A length written by `to_string` with nothing after it is read as that length. */
  lemma {:induction false} ReadLengthOfNatToString(n: nat)
    ensures ReadLength(NatToString(n)) == Some(n)
  {
    ReadNumberAfterNatToString(n, []);
    assert NatToString(n) + [] == NatToString(n);
  }

  /** "bytes <a>-<b>/<c>" is read field by field. */
  lemma {:induction false} SatisfiedFields(a: string, b: string, c: string, first: nat, last: nat, length: nat)
    requires |a| > 0 && a[0] != '*'
    requires ReadNumberThen(a + (['-'] + (b + (['/'] + c))), '-') == Some((first, b + (['/'] + c)))
    requires ReadNumberThen(b + (['/'] + c), '/') == Some((last, c))
    requires ReadLength(c) == Some(length)
    ensures ParseContentRange("bytes " + a + "-" + b + "/" + c) == Some(Satisfied(first, last, length))
  {
    var spanPart := a + (['-'] + (b + (['/'] + c)));
    assert "bytes " + a + "-" + b + "/" + c == "bytes " + spanPart;
    assert spanPart[0] == a[0];
    SpanAfterUnit(spanPart);
    SpanFields(spanPart, b + (['/'] + c), c, first, last, length);
  }

  /** A span read field by field: the first number up to '-', the last up to '/', then the length. */
  lemma {:induction false} SpanFields(spanPart: string, afterFirst: string, afterLast: string,
                                      first: nat, last: nat, length: nat)
    requires ReadNumberThen(spanPart, '-') == Some((first, afterFirst))
    requires ReadNumberThen(afterFirst, '/') == Some((last, afterLast))
    requires ReadLength(afterLast) == Some(length)
    ensures ReadSpan(spanPart) == Some(Satisfied(first, last, length))
  {
  }

  /** After "bytes ", a text that does not start with '*' is read as a span. */
  lemma {:induction false} SpanAfterUnit(spanPart: string)
    requires |spanPart| > 0 && spanPart[0] != '*'
    ensures ParseContentRange("bytes " + spanPart) == ReadSpan(spanPart)
  {
    var s := "bytes " + spanPart;
    assert s[..6] == "bytes ";
    assert s[6..] == spanPart;
  }

  /** A client reads back exactly the span and size a 206 `Content-Range` was written from. */
  lemma {:induction false} SatisfiedContentRangeReadsBack(r: ByteRange, fileSize: nat)
    ensures ParseContentRange(SatisfiedContentRange(r, fileSize)) == Some(Satisfied(r.start, r.end, fileSize))
  {
    var a, b, c := NatToString(r.start), NatToString(r.end), NatToString(fileSize);
    ReadNumberThenSeparator(r.start, '-', b + (['/'] + c));
    ReadNumberThenSeparator(r.end, '/', c);
    ReadLengthOfNatToString(fileSize);
    SatisfiedFields(a, b, c, r.start, r.end, fileSize);
  }

  /** A client reads back exactly the size a 416 `Content-Range` was written from. */
  lemma {:induction false} UnsatisfiedContentRangeReadsBack(fileSize: nat)
    ensures ParseContentRange(UnsatisfiedContentRange(fileSize)) == Some(Unsatisfied(fileSize))
  {
    var s := UnsatisfiedContentRange(fileSize);
    assert s[6..][2..] == NatToString(fileSize);
    ReadLengthOfNatToString(fileSize);
  }

  /**
   * The bytes a file of content `data` can supply for the inclusive span
   * `[start, end]`: the span cut at the end of the file.
   */
  function Supplied(data: seq<Byte>, start: nat, end: nat): seq<Byte>
    requires start <= end
  {
    if start >= |data| then [] else data[start..if end + 1 < |data| then end + 1 else |data|]
  }

  /** The response body formed by a sequence of written chunks. */
  function Flatten(chunks: seq<seq<Byte>>): seq<Byte> {
    if |chunks| == 0 then [] else Flatten(chunks[..|chunks| - 1]) + chunks[|chunks| - 1]
  }

  /** The body of a streamed response: the file could not be opened, or the chunks written. */
  datatype StreamBody = MissingFile | Body(chunks: seq<seq<Byte>>)

  /**
   * Copies the inclusive span `[startOffset, endOffset]` of a file into the
   * response, at most 64 KiB per read. `file` is the file's content, None
   * when it cannot be opened. A read that returns nothing ends the copy, and
   * so does a short read (it leaves the stream at end of file). The byte
   * count still to copy is a 64-bit unsigned value, so the span of all 2^64
   * offsets wraps to a count of zero and nothing is copied.
   */
  method StreamFile(file: Option<seq<Byte>>, startOffset: U64, endOffset: U64) returns (body: StreamBody)
    requires startOffset <= endOffset
    ensures body.MissingFile? <==> file.None?
    ensures body.Body? ==> forall i :: 0 <= i < |body.chunks| ==> 0 < |body.chunks[i]| <= StreamChunkSize
    ensures body.Body? && endOffset - startOffset + 1 < UINT64_LIMIT ==>
              Flatten(body.chunks) == Supplied(file.value, startOffset, endOffset)
    ensures body.Body? && endOffset - startOffset + 1 == UINT64_LIMIT ==> body.chunks == []
    ensures body.Body? ==> |Flatten(body.chunks)| <= endOffset - startOffset + 1
    ensures body.Body? && endOffset < |file.value| && endOffset - startOffset + 1 < UINT64_LIMIT ==>
              |Flatten(body.chunks)| == endOffset - startOffset + 1
  {
    if file.None? {
      return MissingFile;
    }
    var data := file.value;
    var pos: nat := startOffset;
    var span: nat := endOffset - startOffset + 1;
    // The 64-bit count: only the span of all 2^64 offsets wraps, to zero.
    var remaining: nat := if span == UINT64_LIMIT then 0 else span;
    var good := true;
    var chunks: seq<seq<Byte>> := [];
    while remaining > 0 && good
      invariant startOffset <= pos
      invariant span == UINT64_LIMIT ==> remaining == 0 && pos == startOffset
      invariant span < UINT64_LIMIT ==> (pos - startOffset) + remaining == span
      invariant pos == startOffset || pos <= |data|
      invariant Flatten(chunks) == if pos == startOffset then [] else data[startOffset..pos]
      invariant !good ==> pos == |data| && pos > startOffset
      invariant forall i :: 0 <= i < |chunks| ==> 0 < |chunks[i]| <= StreamChunkSize
      decreases remaining
    {
      var toRead := if remaining < StreamChunkSize then remaining else StreamChunkSize;
      var readBytes := if pos >= |data| then 0 else if toRead < |data| - pos then toRead else |data| - pos;
      if readBytes == 0 {
        break;
      }
      var chunk := data[pos..pos + readBytes];
      assert (chunks + [chunk])[..|chunks|] == chunks;
      chunks := chunks + [chunk];
      pos := pos + readBytes;
      remaining := remaining - readBytes;
      good := readBytes == toRead;
    }
    body := Body(chunks);
  }

  /** The size the filesystem reports for a file, None when it does not exist. */
  function SizeOf(file: Option<seq<Byte>>): Option<U64>
    requires file.Some? ==> |file.value| < UINT64_LIMIT
  {
    match file
    case None => None
    case Some(data) => Some(|data|)
  }

  /**
   * The whole stream route: the lookup of `idText` in `repo` (the read
   * completing when `readOk` holds), then `file`, the content of the media
   * file the recording names (None when the file does not exist).
   * Whenever a body is sent, it is exactly the bytes of the span the head
   * announces, delivered in chunks of at most 64 KiB.
   */
  method ServeStream(repo: Repository, readOk: bool, idText: string, file: Option<seq<Byte>>, rangeHeader: string)
    returns (head: StreamHead, body: Option<StreamBody>)
    requires Valid(repo)
    requires file.Some? ==> |file.value| < UINT64_LIMIT
    ensures head == StreamRoute(LookUp(repo, readOk, idText), SizeOf(file), rangeHeader)
    ensures body.Some? <==> head.status == 200 || head.status == 206
    ensures body.Some? ==> (body.value.Body? && head.span.Some? && head.span.value.end < |file.value|
                            && Flatten(body.value.chunks) == file.value[head.span.value.start..head.span.value.end + 1])
    ensures body.Some? ==> forall i :: 0 <= i < |body.value.chunks| ==> |body.value.chunks[i]| <= StreamChunkSize
  {
    head := StreamRoute(LookUp(repo, readOk, idText), SizeOf(file), rangeHeader);
    if head.span.None? {
      return head, None;
    }
    var span := head.span.value;
    var streamed := StreamFile(file, span.start, span.end);
    body := Some(streamed);
  }

  /** The route's head for a found, non-empty file whose `Range` value the parser accepts. */
  lemma {:induction false} RouteServesParsed(fileSize: U64, header: string, r: ByteRange)
    requires fileSize > 0 && header != []
    requires ParseRangeHeader(header, fileSize) == Some(r)
    ensures StreamRoute(RecordingFound, Some(fileSize), header).status == 206
    ensures StreamRoute(RecordingFound, Some(fileSize), header).span == Some(r)
  {
  }

  /** The route's head for a found, non-empty file whose `Range` value the parser refuses. */
  lemma {:induction false} RouteRefusesUnparsed(fileSize: U64, header: string)
    requires fileSize > 0 && header != []
    requires ParseRangeHeader(header, fileSize).None?
    ensures StreamRoute(RecordingFound, Some(fileSize), header).status == 416
  {
  }

  /** Example: the first hundred bytes of a 1000-byte file. */
  lemma {:induction false} ExampleLeadingSpan()
    ensures StreamRoute(RecordingFound, Some(1000), "bytes=0-99").status == 206
    ensures StreamRoute(RecordingFound, Some(1000), "bytes=0-99").span == Some(ByteRange(0, 99))
  {
    var header: string := "bytes=0-99";
    assert NatToString(0) == "0";
    assert NatToString(99) == "99";
    assert header == RangeUnitPrefix + NatToString(0) + "-" + (NatToString(99) + []);
    FirstLastRange(0, 99, [], 1000);
    RouteServesParsed(1000, header, ByteRange(0, 99));
  }

  /** Example: the last fifty bytes of a 1000-byte file. */
  lemma {:induction false} ExampleSuffixSpan()
    ensures StreamRoute(RecordingFound, Some(1000), "bytes=-50").span == Some(ByteRange(950, 999))
  {
    var header: string := "bytes=-50";
    assert NatToString(50) == "50";
    assert header == RangeUnitPrefix + "-" + NatToString(50) + [];
    SuffixRange(50, [], 1000);
    RouteServesParsed(1000, header, ByteRange(950, 999));
  }

  /** Example: a first position at the file size is unsatisfiable. */
  lemma {:induction false} ExampleStartAtSize()
    ensures StreamRoute(RecordingFound, Some(1000), "bytes=1000-").status == 416
  {
    var header: string := "bytes=1000-";
    assert NatToString(1000) == "1000";
    assert header == RangeUnitPrefix + NatToString(1000) + "-" + [];
    OpenEndedRange(1000, 1000);
    RouteRefusesUnparsed(1000, header);
  }

  /** Example: a last position past the end is clamped. */
  lemma {:induction false} ExampleClampedEnd()
    ensures StreamRoute(RecordingFound, Some(1000), "bytes=900-2000").span == Some(ByteRange(900, 999))
  {
    var header: string := "bytes=900-2000";
    assert NatToString(900) == "900";
    assert NatToString(2000) == "2000";
    assert header == RangeUnitPrefix + NatToString(900) + "-" + (NatToString(2000) + []);
    FirstLastRange(900, 2000, [], 1000);
    RouteServesParsed(1000, header, ByteRange(900, 999));
  }

  /** Only the first of several ranges is served. */
  lemma {:induction false} ExampleSecondRangeIgnored()
    ensures StreamRoute(RecordingFound, Some(1000), "bytes=0-1,5-6").span == Some(ByteRange(0, 1))
  {
    var header: string := "bytes=0-1,5-6";
    assert NatToString(0) == "0";
    assert NatToString(1) == "1";
    assert header == RangeUnitPrefix + NatToString(0) + "-" + (NatToString(1) + ",5-6");
    FirstLastRange(0, 1, ",5-6", 1000);
    RouteServesParsed(1000, header, ByteRange(0, 1));
  }

  /** A range in another unit is answered 416 rather than ignored. */
  lemma {:induction false} ExampleOtherUnitRefused()
    ensures StreamRoute(RecordingFound, Some(1000), "items=0-5").status == 416
  {
    var header: string := "items=0-5";
    assert header[..6][0] == 'i';
    assert !StartsWith(header, RangeUnitPrefix);
  }
}
