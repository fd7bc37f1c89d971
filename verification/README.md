# BuksanVideoCap core, modelled in Dafny

This project models the core of the BuksanVideoCap video-capture service: the
parts whose behaviour can be stated one call at a time. They are:

- the HTTP media delivery layer: `Range` header parsing, the stream route's
  status and `Content-Range` decision, and the chunked copy of the selected
  bytes;
- the `/recordings` routes: the time-range listing, the lookup by identity,
  and segment registration with its 201/202 answer;
- the durable metadata write path: the in-memory FIFO of pending commands,
  `registerSegment`, which falls back to the queue when the database is
  unavailable, and `flushPendingMetadata`, which drains the queue with
  partial-failure handling;
- the PostgreSQL connection pool's accounting and the scoped lease that hands
  connections back;
- the in-process camera registry (`core/CameraManager`) and the start-up
  camera registration, which checks for the URL before inserting.

The model consists of pure functions over immutable datatypes, plus three
methods: `streamFile`'s chunking loop (`MediaStream.StreamFile`), the whole
stream route built on it (`MediaStream.ServeStream`), and the camera listing,
whose hash-map iteration order is left open (`CameraManager.ListCameras`
with its helper `CameraManager.InSomeOrder`). The database is an abstract
repository. Its success or failure on each `create` call comes from an
availability oracle: the function `accepts(n, command)` says whether the
`n`-th attempt commits. Whether a read completes is a parameter `readOk` of
the routes that read. The model then
proves properties over every such oracle. Examples:

- no queued recording is ever lost or duplicated, provided a `create` that
  throws stored nothing (see `RecordingRepository.Create` under "Left out");
- a flush round stores exactly an accepted prefix of the queue;
- the pool's active count never exceeds its size;
- every leased connection is released exactly once;
- repeating a configuration never registers a camera twice.

Modules, one per component: `Wrappers` (Option/Result), `Models` (records of
`models/*.h` plus 64-bit integer types), `Text` (`std::stoull`, `std::stoll`,
`std::to_string`), `RangeHeader`, `MediaStream`, `MetadataQueue`,
`RecordingRepository`, `RecordingService`, `RecordingRoutes`,
`ConnectionPool`, `PooledConnection`, `CameraManager`, `CameraRepository`,
`CameraService`.

Three behaviours of the code are easy to misread, and the model states them
as the code has them:

- **Refused `Range` values.** Any non-empty `Range` value the parser refuses
  is answered 416 with `Content-Range: bytes */<size>`; it is never ignored
  (`api/HttpServer.cpp:424-431`). This includes an unknown unit, a value
  without '-', and `bytes=-`. `MediaStream.StreamRoute` states the 416.
- **Queue order after a partial failure.** Take the queue [A, B, C], where B
  fails. The failed command goes back to the tail and C is not tried in
  that round (`services/RecordingService.cpp:45-48`). So a flush of 3 leaves
  [C, B], and [C, B, D] once D is queued. This is
  `RecordingService.PartialFailureRound`.
- **Whole `std::stoull` behaviour.** Numbers are read by the whole
  `std::stoull` behaviour: leading white space, an optional sign, the longest
  digit run, and out-of-range above 2^64 - 1. A leading minus negates modulo
  2^64. So an oversized last position is refused (416) rather than clamped.

## Model

| member | source | states |
|---|---|---|
| Text.Find | services/VideoCaptureService/BuksanVideoCap/api/HttpServer.cpp:86-89 | The position of the first '-' when there is one, and None exactly when the text has none. |
| Text.NatToStringValue | services/VideoCaptureService/BuksanVideoCap/api/HttpServer.cpp:428 | `std::to_string` of a size or position reads back as the same number. |
| Text.StoullReadsNatToString | services/VideoCaptureService/BuksanVideoCap/api/HttpServer.cpp:99 | `std::stoull` of a decimal numeral followed by non-digit text yields the number below 2^64 and throws out_of_range at or above it. |
| Text.StollReadsIntToString | services/VideoCaptureService/BuksanVideoCap/api/HttpServer.cpp:321-323 | `std::stoll` of the decimal form of any 64-bit integer gives that integer back. |
| Text.StollOutOfRange | services/VideoCaptureService/BuksanVideoCap/api/HttpServer.cpp:323 | `std::stoll` of the decimal form of a number above 2^63 - 1 throws out_of_range. |
| Text.StoullNegativeWraps | services/VideoCaptureService/BuksanVideoCap/api/HttpServer.cpp:112 | `std::stoull("-n")` is 2^64 - n, not an error. |
| Text.NoDigitNoConversion | services/VideoCaptureService/BuksanVideoCap/api/HttpServer.cpp:99 | Text without any digit makes the conversion throw invalid_argument. |
| RangeHeader.ParseRangeHeader | services/VideoCaptureService/BuksanVideoCap/api/HttpServer.cpp:79-133 | An accepted value starts with "bytes=" and selects start <= end <= fileSize - 1 of a non-empty file. |
| RangeHeader.SuffixSpan | services/VideoCaptureService/BuksanVideoCap/api/HttpServer.cpp:95-110 | The suffix form never selects outside a non-empty file. |
| RangeHeader.BoundedSpan | services/VideoCaptureService/BuksanVideoCap/api/HttpServer.cpp:112-129 | The start form only accepts a span with start <= end < fileSize. |
| RangeHeader.ClampedEnd | services/VideoCaptureService/BuksanVideoCap/api/HttpServer.cpp:117-124 | The last position, omitted or clamped, is below the file size. |
| RangeHeader.SplitAtDash | services/VideoCaptureService/BuksanVideoCap/api/HttpServer.cpp:85-92 | Only the text up to the first '-' is the first position; everything after it is the last position's text. |
| RangeHeader.FirstLastRange | services/VideoCaptureService/BuksanVideoCap/api/HttpServer.cpp:112-129 | "bytes=s-e...": refused when s >= fileSize, when either number overflows, or when s > min(e, fileSize - 1); otherwise the span s..min(e, fileSize - 1). Trailing text such as a second range is ignored. |
| RangeHeader.OpenEndedRange | services/VideoCaptureService/BuksanVideoCap/api/HttpServer.cpp:112-118 | "bytes=s-" selects s..fileSize - 1 when s < fileSize and is refused otherwise. |
| RangeHeader.SuffixRange | services/VideoCaptureService/BuksanVideoCap/api/HttpServer.cpp:95-109 | "bytes=-n": refused for n = 0 or an overflowing n. Otherwise it selects from fileSize - n, or from 0 when n >= fileSize, to fileSize - 1. |
| RangeHeader.RefusedHeaders | services/VideoCaptureService/BuksanVideoCap/api/HttpServer.cpp:81-98 | A unit other than "bytes=", no '-' after it, and "bytes=-" are all refused. |
| RangeHeader.NonNumericFirstRefused | services/VideoCaptureService/BuksanVideoCap/api/HttpServer.cpp:112 | A first position without digits is refused, whatever follows. |
| RangeHeader.ParsedRangeReparses | services/VideoCaptureService/BuksanVideoCap/api/HttpServer.cpp:79-133 | Round trip: an accepted span written back as "bytes=start-end" is accepted as the same span. |
| MediaStream.StreamRoute | services/VideoCaptureService/BuksanVideoCap/api/HttpServer.cpp:396-448 | 500 iff the lookup threw. Otherwise 404 iff the recording, its file or its content is missing. 200 over the whole file iff there is no `Range`. 416 iff a non-empty `Range` is refused, with `Content-Range` "bytes */size", which reads back as the size. 206 iff it is accepted, over exactly the parsed span, with `Content-Range` "bytes s-e/size", which reads back as that span and size. A span is sent only with 200/206, and only inside the file. |
| MediaStream.LookUp | services/VideoCaptureService/BuksanVideoCap/api/HttpServer.cpp:398-403 | The stream route's lookup ends as `GET /recordings/<id>` does on the same identity: it throws exactly when that route answers 500, finds nothing exactly when it answers 404, and finds the recording exactly when it answers 200. |
| MediaStream.SatisfiedContentRangeReadsBack | services/VideoCaptureService/BuksanVideoCap/api/HttpServer.cpp:434-437 | The 206 `Content-Range` text "bytes s-e/size" parses back to exactly s, e and size. |
| MediaStream.UnsatisfiedContentRangeReadsBack | services/VideoCaptureService/BuksanVideoCap/api/HttpServer.cpp:428 | The 416 `Content-Range` text "bytes */size" parses back to the size. |
| MediaStream.StreamFile | services/VideoCaptureService/BuksanVideoCap/api/HttpServer.cpp:135-159 | A missing file answers 404. Otherwise every chunk is 1..64 KiB and the chunks concatenate to the file's bytes start..end. That is at most end - start + 1 bytes, and exactly that many when the file holds byte `end`. The 64-bit count `end - start + 1` wraps to 0 for the span of all 2^64 offsets, and then nothing is written. |
| MediaStream.ServeStream | services/VideoCaptureService/BuksanVideoCap/api/HttpServer.cpp:396-448 | The head is the route's decision on the lookup of the identity and on the file's size. A body is sent exactly with 200/206, and it is exactly the file slice the head's span announces, in chunks of at most 64 KiB. |
| MediaStream.ExampleLeadingSpan | services/VideoCaptureService/BuksanVideoCap/api/HttpServer.cpp:112-129 | "bytes=0-99" on 1000 bytes: 206 over 0..99. |
| MediaStream.ExampleSuffixSpan | services/VideoCaptureService/BuksanVideoCap/api/HttpServer.cpp:95-109 | "bytes=-50" on 1000 bytes selects 950..999. |
| MediaStream.ExampleStartAtSize | services/VideoCaptureService/BuksanVideoCap/api/HttpServer.cpp:113-115 | "bytes=1000-" on 1000 bytes is 416. |
| MediaStream.ExampleClampedEnd | services/VideoCaptureService/BuksanVideoCap/api/HttpServer.cpp:120-123 | "bytes=900-2000" on 1000 bytes selects 900..999. |
| MediaStream.ExampleSecondRangeIgnored | services/VideoCaptureService/BuksanVideoCap/api/HttpServer.cpp:86-92 | "bytes=0-1,5-6" selects 0..1. |
| MediaStream.ExampleOtherUnitRefused | services/VideoCaptureService/BuksanVideoCap/api/HttpServer.cpp:424-431 | "items=0-5" is answered 416, not ignored. |
| MetadataQueue.Enqueue | services/VideoCaptureService/BuksanVideoCap/utils/InMemoryMetadataSyncQueue.cpp:5-8 | The command is appended at the tail: the old queue is a prefix and the size grows by exactly one. |
| MetadataQueue.TryDequeue | services/VideoCaptureService/BuksanVideoCap/utils/InMemoryMetadataSyncQueue.cpp:10-18 | Succeeds iff the queue is non-empty. It then yields the head and leaves the rest; on an empty queue both the queue and the out-value are untouched. |
| MetadataQueue.EnqueueAllAppends | services/VideoCaptureService/BuksanVideoCap/utils/InMemoryMetadataSyncQueue.cpp:5-8 | Enqueueing a list appends it in order, and the size grows by its length. |
| MetadataQueue.DrainIsQueueOrder | services/VideoCaptureService/BuksanVideoCap/utils/InMemoryMetadataSyncQueue.cpp:10-18 | Dequeueing until empty yields the queue's contents in order. |
| MetadataQueue.Fifo | services/VideoCaptureService/BuksanVideoCap/utils/InMemoryMetadataSyncQueue.cpp:5-18 | Whatever is enqueued comes out after what was there, in enqueue order. |
| MetadataQueue.FifoPair | services/VideoCaptureService/BuksanVideoCap/utils/InMemoryMetadataSyncQueue.cpp:5-17 | Enqueue a then b: two dequeues yield a then b, and a third finds the queue empty. |
| RecordingRepository.Create | services/VideoCaptureService/BuksanVideoCap/repositories/postgres/PostgresRecordingRepository.cpp:76-96 | Every call is logged. It commits iff the oracle accepts, storing the command under the next serial identity. A failure is taken to store nothing; a commit that throws after the server committed is left out. |
| RecordingRepository.FindById | services/VideoCaptureService/BuksanVideoCap/repositories/postgres/PostgresRecordingRepository.cpp:59-74 | Finds a stored row with that identity iff one exists. |
| RecordingRepository.FindByCameraAndRange | services/VideoCaptureService/BuksanVideoCap/repositories/postgres/PostgresRecordingRepository.cpp:36-57 | Exactly the rows of the camera with from <= unixtime <= to, each as often as stored, in capture-time order. |
| RecordingService.RegisterSegment | services/VideoCaptureService/BuksanVideoCap/services/RecordingService.cpp:24-32 | Persisted iff `create` commits. On success the new identity finds the recording and the queue is unchanged. On failure the command goes to the queue tail and no identity is given; the rows are unchanged, given that a throwing `create` stored nothing. |
| RecordingService.FlushPendingMetadata | services/VideoCaptureService/BuksanVideoCap/services/RecordingService.cpp:34-51 | The count is at most the budget and the queue length, and the queue shrinks by exactly the count. |
| RecordingService.FlushOutcome | services/VideoCaptureService/BuksanVideoCap/services/RecordingService.cpp:34-51 | A round of count n stores the first n queued commands, in order, under consecutive identities; each was tried once. Then either the budget or queue ran out, leaving the remainder untouched, or command n was refused: then nothing after it was tried, and the queue is the remainder followed by that command. |
| RecordingService.FlushConserves | services/VideoCaptureService/BuksanVideoCap/services/RecordingService.cpp:34-51 | A flush loses and duplicates nothing: the multiset of stored plus queued commands is unchanged. |
| RecordingService.RegisterConserves | services/VideoCaptureService/BuksanVideoCap/services/RecordingService.cpp:24-32 | A registration adds its command to stored-or-queued, and nothing else. |
| RecordingService.PendingQueueSizeTracks | services/VideoCaptureService/BuksanVideoCap/services/RecordingService.cpp:53-55 | The pending count rises by one exactly on a refused registration, and falls by the count a flush answers. |
| RecordingService.IdleFlush | services/VideoCaptureService/BuksanVideoCap/services/RecordingService.cpp:36-40 | An empty queue or a zero budget answers 0 and changes nothing, not even the attempt log. |
| RecordingService.FlushWhileAvailable | services/VideoCaptureService/BuksanVideoCap/services/RecordingService.cpp:36-44 | With the database available, a round stores min(budget, queue length) commands from the head. |
| RecordingService.PartialFailureRound | services/VideoCaptureService/BuksanVideoCap/services/RecordingService.cpp:42-48 | The queue [a, b, c] with b refused: count 1, a is stored, a and b are tried, and the queue becomes [c, b]. A later refused d then queues as [c, b, d]. |
| RecordingService.RecoveryRound | services/VideoCaptureService/BuksanVideoCap/services/RecordingService.cpp:34-51 | Three commands queued during an outage are all stored by one round of 3 once the database is back. |
| RecordingService.NothingDropped | services/VideoCaptureService/BuksanVideoCap/services/RecordingService.cpp:24-51 | After any sequence of registrations and flush rounds, under any availability, the stored plus queued commands are the ones at the start plus every registered one. |
| RecordingRoutes.ParseQuery | services/VideoCaptureService/BuksanVideoCap/api/HttpServer.cpp:320-323 | The query converts iff all three `std::stoll` calls do, to their values. The error is that of the first failing conversion, in the order camera, from, to. |
| RecordingRoutes.ListRecordings | services/VideoCaptureService/BuksanVideoCap/api/HttpServer.cpp:309-341 | A missing parameter is 400 with the missing-parameters message. A parameter that does not convert is 400 before any read, with "must be numeric" for invalid_argument and "out of range" for out_of_range, as the first failing conversion decides. from > to is 400 "from must be less than or equal to to". Otherwise 500 iff the read throws, and else 200 with the repository's answer: exactly the camera's recordings in [from, to], each as often as stored, in time order. |
| RecordingRoutes.ListNumericQuery | services/VideoCaptureService/BuksanVideoCap/api/HttpServer.cpp:320-340 | For decimal parameters: 200 with the repository's answer when from <= to and the read completes, 500 when it throws, and the range-order 400, before any read, when from > to. |
| RecordingRoutes.NonNumericCameraRefused | services/VideoCaptureService/BuksanVideoCap/api/HttpServer.cpp:321-335 | A camera parameter without digits is 400 "must be numeric". |
| RecordingRoutes.OversizedToRefused | services/VideoCaptureService/BuksanVideoCap/api/HttpServer.cpp:321-337 | When the camera and `from` convert, a decimal `to` beyond 2^63 - 1 is 400 "out of range", whatever the read would do. |
| RecordingRoutes.FetchRecording | services/VideoCaptureService/BuksanVideoCap/api/HttpServer.cpp:343-356 | 500 iff the identity does not convert or the read throws. Otherwise 404 if no recording has that identity, else 200 with it. |
| RecordingRoutes.PostRecording | services/VideoCaptureService/BuksanVideoCap/api/HttpServer.cpp:377-386 | 201 iff the database commits, and the identity it carries finds the recording. Otherwise 202 with the pending size after queueing: the old size plus one. |
| RecordingRoutes.PostThenFetch | services/VideoCaptureService/BuksanVideoCap/api/HttpServer.cpp:343-386 | Round trip: after a 201, fetching the identity it carries, written in decimal, returns the recording just posted when the read completes. |
| ConnectionPool.NewPool | services/VideoCaptureService/BuksanVideoCap/db/PostgresConnectionPool.cpp:8-14 | A zero size is refused with its message. Otherwise the pool starts empty, with nothing active. |
| ConnectionPool.Acquire | services/VideoCaptureService/BuksanVideoCap/db/PostgresConnectionPool.cpp:16-40 | Enabled only when it would not wait. An idle connection is reused from the head with the count unchanged. Otherwise the count rises by one for a new connection. A connection that reports itself closed leaves the pool as it was and raises the error. A throwing constructor raises its error and keeps the raised count. The count stays within the size. |
| ConnectionPool.ThrowingOpensExhaust | services/VideoCaptureService/BuksanVideoCap/db/PostgresConnectionPool.cpp:25-37 | When every connect throws, a fresh pool is used up after `poolSize` calls: nothing is idle or held, yet every later acquire waits. |
| ConnectionPool.Release | services/VideoCaptureService/BuksanVideoCap/db/PostgresConnectionPool.cpp:42-54 | An open connection joins the idle tail with the count unchanged. A null or closed one drops the count by one, saturating at 0, with the idle queue unchanged. The count stays within the size. |
| ConnectionPool.LedgerAcquire | services/VideoCaptureService/BuksanVideoCap/db/PostgresConnectionPool.cpp:20-35 | The pool changes as `acquire` says. A connection handed out becomes leased; a failed acquire leases nothing. |
| ConnectionPool.LedgerRelease | services/VideoCaptureService/BuksanVideoCap/db/PostgresConnectionPool.cpp:42-54 | Releasing a leased connection removes one copy of it from the leased ones. |
| ConnectionPool.AcquireAccounted | services/VideoCaptureService/BuksanVideoCap/db/PostgresConnectionPool.cpp:20-35 | Acquiring keeps idle + leased = active, except exactly when a new connection's constructor throws; then the count is one more than idle + leased. |
| ConnectionPool.ReleaseAccounted | services/VideoCaptureService/BuksanVideoCap/db/PostgresConnectionPool.cpp:45-51 | Releasing a connection leased from this pool, open or closed, keeps idle + leased = active. |
| ConnectionPool.NullReleaseUnbalances | services/VideoCaptureService/BuksanVideoCap/db/PostgresConnectionPool.cpp:45-48 | A null release breaks idle + leased = active. That is why the accounting needs releases of leased connections only. |
| ConnectionPool.IdlePoolServes | services/VideoCaptureService/BuksanVideoCap/db/PostgresConnectionPool.cpp:25-37 | With exact books and nothing leased, acquire never waits. |
| ConnectionPool.PoolOfTwo | services/VideoCaptureService/BuksanVideoCap/db/PostgresConnectionPool.cpp:16-54 | Size 2: two acquires open two connections and a third must wait. After one release, the third reuses that connection. |
| PooledConnection.Destroy | services/VideoCaptureService/BuksanVideoCap/db/IConnectionPool.cpp:12-16 | The destructor releases the connection, once, exactly when pool and connection are both non-null. |
| PooledConnection.MoveConstruct | services/VideoCaptureService/BuksanVideoCap/db/IConnectionPool.cpp:18-21 | The new lease holds what the source held, and the moved-from lease releases nothing. |
| PooledConnection.MoveAssign | services/VideoCaptureService/BuksanVideoCap/db/IConnectionPool.cpp:23-32 | Self-assignment changes nothing. Otherwise the target first releases what it held, then takes the source's pointers, and the source is left null. |
| PooledConnection.Get | services/VideoCaptureService/BuksanVideoCap/db/IConnectionPool.cpp:34-36 | Returns the connection the lease holds. |
| PooledConnection.MoveKeepsConnection | services/VideoCaptureService/BuksanVideoCap/db/IConnectionPool.cpp:18-32 | Both kinds of move hand over the very connection the source held. |
| PooledConnection.Step | services/VideoCaptureService/BuksanVideoCap/db/IConnectionPool.cpp:12-32 | One move, self-assignment or destruction releases at most one connection. What the leases still owe plus what was released is unchanged. |
| PooledConnection.ReleasedOnce | services/VideoCaptureService/BuksanVideoCap/db/IConnectionPool.cpp:12-32 | Over any program of moves and destructions, owed plus released equals what was owed at the start, so no connection is released twice. |
| PooledConnection.AllReturned | services/VideoCaptureService/BuksanVideoCap/db/IConnectionPool.cpp:12-16 | Once nothing is owed, every held connection has been released exactly once. |
| CameraManager.AddCamera | services/VideoCaptureService/BuksanVideoCap/core/CameraManager.cpp:8-26 | Succeeds iff id, URL and path are non-empty and the id is new. It then adds a stopped entry, storing a duration <= 0 as 300, and touches nothing else; a failure changes nothing. |
| CameraManager.RemoveCamera | services/VideoCaptureService/BuksanVideoCap/core/CameraManager.cpp:28-39 | Succeeds iff the camera exists and is not recording, and then deletes exactly that id. |
| CameraManager.StartRecording | services/VideoCaptureService/BuksanVideoCap/core/CameraManager.cpp:41-59 | Succeeds iff the camera exists and is stopped. It then marks that camera running and leaves the others unchanged. |
| CameraManager.StopRecording | services/VideoCaptureService/BuksanVideoCap/core/CameraManager.cpp:61-74 | Succeeds iff the camera exists and is running, and then marks it stopped. |
| CameraManager.GetStatus | services/VideoCaptureService/BuksanVideoCap/core/CameraManager.cpp:76-86 | "" iff the id is unknown, otherwise "running" or "stopped" according to the flag. |
| CameraManager.CameraExists | services/VideoCaptureService/BuksanVideoCap/core/CameraManager.cpp:88-91 | True iff the status is not empty, that is, iff the id is registered. |
| CameraManager.StopAll | services/VideoCaptureService/BuksanVideoCap/core/CameraManager.cpp:93-101 | Every entry is stopped, with the same ids and settings. |
| CameraManager.ListCameras | services/VideoCaptureService/BuksanVideoCap/core/CameraManager.cpp:103-112 | One (id, status) pair per registered camera, each id once, in some iteration order. |
| CameraManager.StartStopRoundTrip | services/VideoCaptureService/BuksanVideoCap/core/CameraManager.cpp:41-74 | Starting then stopping a stopped camera restores the registry. |
| CameraManager.AddRemoveRoundTrip | services/VideoCaptureService/BuksanVideoCap/core/CameraManager.cpp:8-39 | Removing a camera just added restores the registry. |
| CameraManager.RemoveNeedsStop | services/VideoCaptureService/BuksanVideoCap/core/CameraManager.cpp:34-36 | A recording camera cannot be removed; once stopped, it can. |
| CameraManager.StopAllIdempotent | services/VideoCaptureService/BuksanVideoCap/core/CameraManager.cpp:93-101 | Stopping all twice equals stopping all once, and afterwards no single stop succeeds. |
| CameraManager.AddedCameraListedStopped | services/VideoCaptureService/BuksanVideoCap/core/CameraManager.cpp:19-25 | A camera added with duration 0 reports "stopped" and has duration 300. |
| CameraRepository.FindByRtspUrl | services/VideoCaptureService/BuksanVideoCap/repositories/postgres/PostgresCameraRepository.cpp:48-64 | None iff no camera has the URL. Otherwise a stored camera that has the URL. |
| CameraRepository.FoundIsFirst | services/VideoCaptureService/BuksanVideoCap/repositories/postgres/PostgresCameraRepository.cpp:55-57 | The camera found comes before every other camera with that URL in identity order. |
| CameraRepository.FoundHasLowestId | services/VideoCaptureService/BuksanVideoCap/repositories/postgres/PostgresCameraRepository.cpp:55-57 | The camera found has the lowest identity among those with the URL. |
| CameraRepository.FindById | services/VideoCaptureService/BuksanVideoCap/repositories/postgres/PostgresCameraRepository.cpp:32-46 | Finds a camera with that identity iff one exists. |
| CameraRepository.ListAll | services/VideoCaptureService/BuksanVideoCap/repositories/postgres/PostgresCameraRepository.cpp:66-81 | Every camera, in increasing identity order. |
| CameraRepository.Create | services/VideoCaptureService/BuksanVideoCap/repositories/postgres/PostgresCameraRepository.cpp:83-100 | Appends the command's row under a new, larger identity, stamped with the current date, and answers that identity. |
| CameraService.FindCamera | services/VideoCaptureService/BuksanVideoCap/services/CameraService.cpp:14-16 | Answers the repository's answer unchanged. |
| CameraService.ListCameras | services/VideoCaptureService/BuksanVideoCap/services/CameraService.cpp:18-20 | Answers the repository's list unchanged. |
| CameraService.WithUrlKeeps | services/VideoCaptureService/BuksanVideoCap/services/CameraService.cpp:27-29 | Exactly the commands with a non-empty URL are kept: every kept command has one, and every such command is kept. |
| CameraService.RegisterOne | services/VideoCaptureService/BuksanVideoCap/services/CameraService.cpp:31-37 | A known URL answers the found camera's identity without inserting. An unknown one is created under the next identity. Afterwards the URL finds that identity. |
| CameraService.RegisterFromConfig | services/VideoCaptureService/BuksanVideoCap/services/CameraService.cpp:22-41 | One identity per command with a URL. Existing cameras are kept as a prefix, and identities keep increasing. |
| CameraService.RegisteredIdsResolve | services/VideoCaptureService/BuksanVideoCap/services/CameraService.cpp:22-41 | The k-th identity answered is the one a lookup of the k-th URL finds afterwards. |
| CameraService.OnlyNewUrlsInserted | services/VideoCaptureService/BuksanVideoCap/services/CameraService.cpp:31-37 | Every inserted row carries a URL that no earlier row carries. |
| CameraService.SameUrlSameId | services/VideoCaptureService/BuksanVideoCap/services/CameraService.cpp:31-37 | A URL repeated within one call is answered with the same identity. |
| CameraService.NoDuplicateUrls | services/VideoCaptureService/BuksanVideoCap/services/CameraService.cpp:31-37 | If no URL was stored twice before a registration, none is after it. |
| CameraService.AllKnownInsertsNothing | services/VideoCaptureService/BuksanVideoCap/services/CameraService.cpp:26-38 | When every URL is already stored, nothing is inserted and the identities answered are those the lookups give. |
| CameraService.RegistrationIdempotent | services/VideoCaptureService/BuksanVideoCap/services/CameraService.cpp:22-41 | Registering the same configuration again inserts nothing and answers the same identities. |

## Left out

- Crow routing, CORS, JSON parsing and `toJson` are not modelled. A reply is
  its status plus the values its body is built from. `POST /recordings` takes
  the command as already parsed, so its JSON-error 400 is not modelled.
- The health, camera and node routes are not modelled. They are thin glue
  over `CameraManager`, `CameraService` and `NodeService`, which is a
  pass-through.
- `MediaStream.StreamRoute`: a 500 from the filesystem (`exists` or
  `file_size` throwing) is not modelled. The file's size is a parameter.
- Reads are not given a cause of failure. `readOk` stands for every way the
  pooled read can throw: no connection, a throwing connect, or a failed query.
  An exception of pqxx that derives from `std::invalid_argument` or
  `std::out_of_range` would reach the listing's 400 handlers; that case is
  not modelled, and every failed read is the 500.
- `MediaStream.StreamFile`: the file is its content, or None when it cannot
  be opened. A short read ends the loop the way `input.good()` does. I/O
  errors in the middle of a read are not modelled.
- Mutexes, the pool's condition-variable wait and the threads are not
  modelled. Every operation is sequential, and a blocked `acquire` is a step
  that is not enabled.
- The sync worker's loop, and its start, stop and sleep, are not modelled.
  It only calls `flushPendingMetadata` repeatedly, which
  `RecordingService.NothingDropped` covers for any sequence of calls.
- SQL and pqxx are not modelled. Repositories are abstract:
  - recording `create` succeeds or fails by the availability oracle;
  - recording identities are serial, starting at 1;
  - camera identities increase;
  - the current date is a parameter.
- `RecordingRepository.Create`: a call that throws is assumed to have stored
  nothing. In the code `tx.commit()` (PostgresRecordingRepository.cpp:94) can
  throw after the server has committed the insert, for instance when the
  connection drops during the commit. `registerSegment` then queues the
  command, and a later flush inserts it a second time. The program is thus
  at-least-once, and `RecordingService.FlushConserves`,
  `RecordingService.RegisterConserves` and `RecordingService.NothingDropped`
  hold only under this assumption.
- `CameraRepository.Create`: always succeeds. A database error would throw
  out of `registerFromConfig` after the earlier inserts had committed. That
  path is not modelled.
- `RecordingRepository.FindByCameraAndRange`: recordings with equal capture
  times may come back in any order. The database does not fix their order
  either.
- 64-bit wrap-around of record and device identities is not modelled.
  Identities are unbounded integers, and `RecordingRoutes.PostThenFetch`
  requires fewer than 2^63 - 1 stored rows.
- OpenCV capture, encoding and segment rotation (`CameraSession`,
  `Recorder`, `Analytics`) are not modelled. A camera's session is its
  running flag, which only `stop` clears.
- Start-up plumbing is not modelled: configuration loading, `main`, the
  storage manager and `src/CameraManager`.
- `std::stoull` and `std::stoll` are modelled for the "C" locale only.
