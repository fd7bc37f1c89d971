/**
 * The HTTP routes over recordings, apart from streaming: the time-range
 * listing, the lookup by identity and the segment registration. The JSON
 * encoding of bodies is not modelled; a reply carries its status and the
 * values the body would be built from.
 */
module RecordingRoutes {
  import opened Wrappers
  import opened Models
  import opened Text
  import opened RecordingRepository
  import opened MetadataQueue
  import Svc = RecordingService

  const MissingParamsMessage: string := "camera_id, from and to query params are required"
  const RangeOrderMessage: string := "from must be less than or equal to to"
  const NotNumericMessage: string := "camera_id, from and to must be numeric"
  const OutOfRangeMessage: string := "camera_id, from or to is out of range"

  /** The query string: each parameter's first value. */
  type QueryParams = map<string, string>

  /**
   * A reply to `GET /recordings`: a 400 with its message, the 500 of the
   * catch-all handler (its text is the exception's, not modelled), or 200
   * with the matching recordings.
   */
  datatype ListReply =
    | Rejected(status: nat, message: string)
    | ServerError(status: nat)
    | Listed(status: nat, recordings: seq<Recording>)

  /** The message of the 400 answered when a conversion throws. */
  function ConversionMessage(e: ConversionError): string {
    match e
    case InvalidArgument => NotNumericMessage
    case OutOfRange => OutOfRangeMessage
  }

  /**
   * The three `std::stoll` conversions in the code's order — camera, then
   * `from`, then `to` — stopping at the first that throws.
   */
  function ParseQuery(cameraRaw: string, fromRaw: string, toRaw: string): (r: Result<RecordingQuery, ConversionError>)
    ensures r.Success? <==> Stoll(cameraRaw).Success? && Stoll(fromRaw).Success? && Stoll(toRaw).Success?
    ensures r.Success? ==>
              r.value == RecordingQuery(Stoll(cameraRaw).value, Stoll(fromRaw).value, Stoll(toRaw).value)
    ensures Stoll(cameraRaw).Failure? ==> r == Failure(Stoll(cameraRaw).error)
    ensures Stoll(cameraRaw).Success? && Stoll(fromRaw).Failure? ==> r == Failure(Stoll(fromRaw).error)
    ensures Stoll(cameraRaw).Success? && Stoll(fromRaw).Success? && Stoll(toRaw).Failure? ==>
              r == Failure(Stoll(toRaw).error)
  {
    match Stoll(cameraRaw)
    case Failure(e) => Failure(e)
    case Success(cameraId) =>
      match Stoll(fromRaw)
      case Failure(e) => Failure(e)
      case Success(fromUnix) =>
        match Stoll(toRaw)
        case Failure(e) => Failure(e)
        case Success(toUnix) => Success(RecordingQuery(cameraId, fromUnix, toUnix))
  }

  /** Whether the three parameters are present. */
  predicate HasQueryParams(params: QueryParams) {
    "camera_id" in params && "from" in params && "to" in params
  }

  /**
   * `GET /recordings?camera_id=&from=&to=`: 400 when a parameter is
   * missing, does not convert, or `from > to`; otherwise the repository is
   * read. `readOk` tells whether that read completes: acquiring a pooled
   * connection or running the query can throw, and the catch-all answers
   * 500. A completed read is answered 200 with the camera's recordings
   * captured in `[from, to]`, in capture-time order.
   */
  function ListRecordings(repo: Repository, readOk: bool, params: QueryParams): (r: ListReply)
    ensures r.Rejected? ==> r.status == 400
    ensures r.ServerError? ==> r.status == 500
    ensures r.Listed? ==> r.status == 200
    ensures !HasQueryParams(params) ==> r == Rejected(400, MissingParamsMessage)
    ensures !r.Rejected? <==>
              && HasQueryParams(params)
              && ParseQuery(params["camera_id"], params["from"], params["to"]).Success?
              && ParseQuery(params["camera_id"], params["from"], params["to"]).value.fromUnix
                 <= ParseQuery(params["camera_id"], params["from"], params["to"]).value.toUnix
    ensures HasQueryParams(params) && ParseQuery(params["camera_id"], params["from"], params["to"]).Failure? ==>
              r == Rejected(400, ConversionMessage(ParseQuery(params["camera_id"], params["from"], params["to"]).error))
    ensures HasQueryParams(params) && ParseQuery(params["camera_id"], params["from"], params["to"]).Success? &&
            ParseQuery(params["camera_id"], params["from"], params["to"]).value.fromUnix
            > ParseQuery(params["camera_id"], params["from"], params["to"]).value.toUnix ==>
              r == Rejected(400, RangeOrderMessage)
    ensures r.ServerError? <==> !r.Rejected? && !readOk
    ensures r.Listed? ==>
              var q := ParseQuery(params["camera_id"], params["from"], params["to"]).value;
              && r.recordings == FindByCameraAndRange(repo, q)
              && SortedByTime(r.recordings)
              && (forall x :: multiset(r.recordings)[x] == if Matches(q, x) then multiset(repo.rows)[x] else 0)
  {
    if !HasQueryParams(params) then Rejected(400, MissingParamsMessage)
    else
      match ParseQuery(params["camera_id"], params["from"], params["to"])
      case Failure(e) => Rejected(400, ConversionMessage(e))
      case Success(query) =>
        if query.fromUnix > query.toUnix then Rejected(400, RangeOrderMessage)
        else if !readOk then ServerError(500)
        else Listed(200, FindByCameraAndRange(repo, query))
  }

  /** The query string a client builds from three 64-bit integers. */
  function NumericParams(cameraId: I64, fromUnix: I64, toUnix: I64): QueryParams {
    map["camera_id" := IntToString(cameraId), "from" := IntToString(fromUnix), "to" := IntToString(toUnix)]
  }

  /**
   * A client that writes its three integers in decimal gets exactly the
   * camera's recordings in `[fromUnix, toUnix]` when the range is ordered
   * and the read completes, the 500 when it throws, and the range-order 400,
   * before any read, otherwise.
   */
  lemma {:induction false} ListNumericQuery(repo: Repository, readOk: bool, cameraId: I64, fromUnix: I64, toUnix: I64)
    ensures var r := ListRecordings(repo, readOk, NumericParams(cameraId, fromUnix, toUnix));
            && (fromUnix <= toUnix && readOk ==>
                  r == Listed(200, FindByCameraAndRange(repo, RecordingQuery(cameraId, fromUnix, toUnix))))
            && (fromUnix <= toUnix && !readOk ==> r == ServerError(500))
            && (fromUnix > toUnix ==> r == Rejected(400, RangeOrderMessage))
  {
    StollReadsIntToString(cameraId);
    StollReadsIntToString(fromUnix);
    StollReadsIntToString(toUnix);
    var params := NumericParams(cameraId, fromUnix, toUnix);
    assert params["camera_id"] == IntToString(cameraId);
    assert params["from"] == IntToString(fromUnix);
    assert params["to"] == IntToString(toUnix);
  }

  /** A camera parameter without any digit is refused as non-numeric, whatever the other two hold. */
  lemma {:induction false} NonNumericCameraRefused(repo: Repository, readOk: bool, params: QueryParams)
    requires HasQueryParams(params)
    requires forall i :: 0 <= i < |params["camera_id"]| ==> !IsDigit(params["camera_id"][i])
    ensures ListRecordings(repo, readOk, params) == Rejected(400, NotNumericMessage)
  {
    NoDigitNoConversion(params["camera_id"]);
  }

  /**
   * A `to` bound written in decimal beyond the 64-bit range, after a camera
   * and a `from` that convert, is refused with the out-of-range message,
   * before any read.
   */
  lemma {:induction false} OversizedToRefused(repo: Repository, readOk: bool, params: QueryParams, toValue: nat)
    requires HasQueryParams(params)
    requires Stoll(params["camera_id"]).Success? && Stoll(params["from"]).Success?
    requires params["to"] == NatToString(toValue) && toValue > INT64_MAX
    ensures ListRecordings(repo, readOk, params) == Rejected(400, OutOfRangeMessage)
  {
    StollOutOfRange(toValue);
  }

  /** A reply to `GET /recordings/<id>`. */
  datatype FetchReply =
    | FetchFailed(status: nat)
    | Fetched(status: nat, recording: Recording)

  /**
   * `GET /recordings/<id>`: 200 with the recording, 404 when no recording
   * has that identity, and 500 when the identity does not convert or the
   * read throws (`readOk` false): both exceptions reach the route's
   * catch-all handler.
   */
  function FetchRecording(repo: Repository, readOk: bool, idText: string): (r: FetchReply)
    requires Valid(repo)
    ensures r.FetchFailed? ==> r.status == 404 || r.status == 500
    ensures r.status == 500 <==> Stoll(idText).Failure? || !readOk
    ensures r.Fetched? <==> Stoll(idText).Success? && readOk && FindById(repo, Stoll(idText).value).Some?
    ensures r.Fetched? ==> r.status == 200 && r.recording in repo.rows && r.recording.recordId == Stoll(idText).value
  {
    match Stoll(idText)
    case Failure(_) => FetchFailed(500)
    case Success(id) =>
      if !readOk then FetchFailed(500)
      else
        match FindById(repo, id)
        case None => FetchFailed(404)
        case Some(recording) => Fetched(200, recording)
  }

  /** A reply to `POST /recordings`: 201 with the identity, or 202 with the queue length after queueing. */
  datatype PostReply =
    | Created201(recordId: int)
    | Queued202(pendingQueueSize: nat)

  /** The status line of a registration reply. */
  function PostStatus(r: PostReply): nat {
    match r
    case Created201(_) => 201
    case Queued202(_) => 202
  }

  /**
   * `POST /recordings` with a well-formed payload: the segment is
   * registered; 201 carries the new identity, 202 the pending queue length
   * read after the command was queued.
   */
  function PostRecording(svc: Svc.RecordingService, accepts: Availability, command: CreateRecordingCommand)
    : (r: (Svc.RecordingService, PostReply))
    requires Svc.Valid(svc)
    ensures Svc.Valid(r.0)
    ensures PostStatus(r.1) == 201 <==> accepts(|svc.repo.attempts|, command)
    ensures r.1.Created201? ==> FindById(r.0.repo, r.1.recordId) == Some(ToRecording(r.1.recordId, command))
    ensures r.1.Queued202? ==> r.0.queue == svc.queue + [command] && r.1.pendingQueueSize == |svc.queue| + 1
  {
    var registered := Svc.RegisterSegment(svc, accepts, command);
    if registered.result.persisted then (registered.service, Created201(registered.result.recordId.value))
    else (registered.service, Queued202(Svc.PendingQueueSize(registered.service)))
  }

  /**
   * Round trip through the API: a segment the database accepts can be read
   * back under the identity the 201 reply carries, written in decimal,
   * by a read that completes.
   */
  lemma {:induction false} PostThenFetch(svc: Svc.RecordingService, accepts: Availability, command: CreateRecordingCommand)
    requires Svc.Valid(svc)
    requires accepts(|svc.repo.attempts|, command)
    requires |svc.repo.rows| < INT64_MAX
    ensures var (after, reply) := PostRecording(svc, accepts, command);
            && reply.Created201?
            && FetchRecording(after.repo, true, IntToString(reply.recordId)) == Fetched(200, ToRecording(reply.recordId, command))
  {
    var (after, reply) := PostRecording(svc, accepts, command);
    var registered := Svc.RegisterSegment(svc, accepts, command);
    var created := Create(svc.repo, accepts, command);
    assert registered.service.repo == created.repo;
    assert reply.recordId == |svc.repo.rows| + 1;
    StollReadsIntToString(reply.recordId);
  }
}
