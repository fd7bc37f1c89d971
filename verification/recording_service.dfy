/**
 * The durable write path for recording metadata: register a finished
 * segment at once when the database takes it, otherwise park it in the
 * pending queue, and drain that queue in bounded rounds.
 */
module RecordingService {
  import opened Wrappers
  import opened Models
  import opened MetadataQueue
  import opened RecordingRepository

  /** The service's state: its repository and its pending queue. */
  datatype RecordingService = RecordingService(repo: Repository, queue: Queue)

  ghost predicate Valid(svc: RecordingService) {
    RecordingRepository.Valid(svc.repo)
  }

  /** Answer of `registerSegment`. */
  datatype RegisterResult = RegisterResult(persisted: bool, recordId: Option<int>)

  datatype Registered = Registered(service: RecordingService, result: RegisterResult)

  /** A default-constructed command: what the flush loop's local holds before `tryDequeue` fills it. */
  const BlankCommand: CreateRecordingCommand := CreateRecordingCommand(0, 0, "", None, 0, "", "", None)

  /**
   * `registerSegment`: one `create` attempt. Success answers the new identity
   * and leaves the queue alone; failure appends the command to the queue tail
   * and answers "not persisted" without an identity. It never waits for the
   * database to come back.
   */
  function RegisterSegment(svc: RecordingService, accepts: Availability, command: CreateRecordingCommand)
    : (r: Registered)
    requires Valid(svc)
    ensures Valid(r.service)
    ensures r.service.repo.attempts == svc.repo.attempts + [command]
    ensures r.result.persisted <==> accepts(|svc.repo.attempts|, command)
    ensures r.result.persisted ==>
              && r.result.recordId.Some?
              && r.service.queue == svc.queue
              && FindById(r.service.repo, r.result.recordId.value) == Some(ToRecording(r.result.recordId.value, command))
              && FindById(svc.repo, r.result.recordId.value).None?
    ensures !r.result.persisted ==>
              && r.result.recordId.None?
              && r.service.queue == svc.queue + [command]
              && r.service.repo.rows == svc.repo.rows
  {
    var created := Create(svc.repo, accepts, command);
    match created.id
    case Some(id) =>
      Registered(RecordingService(created.repo, svc.queue), RegisterResult(true, Some(id)))
    case None =>
      Registered(RecordingService(created.repo, Enqueue(svc.queue, command)), RegisterResult(false, None))
  }

  datatype Flushed = Flushed(service: RecordingService, count: nat)

  /**
   * `flushPendingMetadata(maxBatchSize)`: at most `maxBatchSize` rounds of
   * "take the head, try to create it". A success counts and goes on; the
   * first failure puts the command back at the TAIL of the queue and ends
   * the call; an empty queue ends it too. Answers the number persisted.
   */
  function FlushPendingMetadata(svc: RecordingService, accepts: Availability, maxBatchSize: nat): (r: Flushed)
    requires Valid(svc)
    ensures Valid(r.service)
    ensures r.count <= maxBatchSize && r.count <= |svc.queue|
    ensures |r.service.queue| == |svc.queue| - r.count
    decreases maxBatchSize
  {
    if maxBatchSize == 0 then Flushed(svc, 0)
    else
      var taken := TryDequeue(svc.queue, BlankCommand);
      if !taken.taken then Flushed(svc, 0)
      else
        var created := Create(svc.repo, accepts, taken.command);
        if created.id.Some? then
          var rest := FlushPendingMetadata(RecordingService(created.repo, taken.queue), accepts, maxBatchSize - 1);
          Flushed(rest.service, rest.count + 1)
        else
          Flushed(RecordingService(created.repo, Enqueue(taken.queue, taken.command)), 0)
  }

  /** `pendingQueueSize`: the queue length, read without touching the repository. */
  function PendingQueueSize(svc: RecordingService): nat {
    Size(svc.queue)
  }

  /** Rows stored for `commands` with consecutive identities starting at `firstId`. */
  function RowsFor(firstId: int, commands: seq<CreateRecordingCommand>): (rows: seq<Recording>)
    ensures |rows| == |commands|
    ensures forall k :: 0 <= k < |commands| ==> rows[k] == ToRecording(firstId + k, commands[k])
  {
    seq(|commands|, k requires 0 <= k < |commands| => ToRecording(firstId + k, commands[k]))
  }

  /**
   * What one flush round does, in closed form. With `n` the count it answers:
   * the first `n` queued commands were each accepted and are stored, in queue
   * order, under the next identities; each of them was passed to `create`
   * exactly once. Either the round used up its budget or emptied the queue
   * (and the rest of the queue is untouched), or command `n` was refused:
   * then it alone was tried once more, nothing after it was tried, and the
   * queue is the untouched remainder followed by that command.
   */
  ghost predicate RoundOutcome(before: RecordingService, accepts: Availability, maxBatchSize: nat,
                               after: RecordingService, n: nat)
  {
    && n <= maxBatchSize && n <= |before.queue|
    && AcceptedPrefix(before, accepts, n)
    && after.repo.rows == before.repo.rows + RowsFor(|before.repo.rows| + 1, before.queue[..n])
    && RoundEnd(before, accepts, maxBatchSize, after, n)
  }

  /** The first `n` queued commands were accepted by consecutive attempts. */
  ghost predicate AcceptedPrefix(before: RecordingService, accepts: Availability, n: nat)
    requires n <= |before.queue|
  {
    forall i :: 0 <= i < n ==> accepts(|before.repo.attempts| + i, before.queue[i])
  }

  /** How the round ended: on a refusal, or on budget or queue exhausted. */
  ghost predicate RoundEnd(before: RecordingService, accepts: Availability, maxBatchSize: nat,
                           after: RecordingService, n: nat)
    requires n <= |before.queue|
  {
    var q := before.queue;
    if n < maxBatchSize && n < |q| then
      && !accepts(|before.repo.attempts| + n, q[n])
      && after.repo.attempts == before.repo.attempts + q[..n + 1]
      && after.queue == q[n + 1..] + [q[n]]
    else
      && after.repo.attempts == before.repo.attempts + q[..n]
      && after.queue == q[n..]
  }

  /** A round that stops at once: no budget, or nothing queued. */
  lemma {:induction false} EmptyRound(svc: RecordingService, accepts: Availability, maxBatchSize: nat)
    requires maxBatchSize == 0 || |svc.queue| == 0
    ensures RoundOutcome(svc, accepts, maxBatchSize, svc, 0)
  {
    assert svc.queue[..0] == [];
    assert RowsFor(|svc.repo.rows| + 1, []) == [];
    assert svc.repo.attempts + [] == svc.repo.attempts;
    assert svc.repo.rows + [] == svc.repo.rows;
  }

  /** A round whose head is refused at once. */
  lemma {:induction false} RefusedHead(svc: RecordingService, accepts: Availability, maxBatchSize: nat, after: RecordingService)
    requires maxBatchSize > 0 && |svc.queue| > 0
    requires !accepts(|svc.repo.attempts|, svc.queue[0])
    requires after.repo.rows == svc.repo.rows
    requires after.repo.attempts == svc.repo.attempts + [svc.queue[0]]
    requires after.queue == svc.queue[1..] + [svc.queue[0]]
    ensures RoundOutcome(svc, accepts, maxBatchSize, after, 0)
  {
    var q := svc.queue;
    assert q[..1] == [q[0]];
    assert q[..0] == [];
    assert RowsFor(|svc.repo.rows| + 1, []) == [];
    assert svc.repo.rows + [] == svc.repo.rows;
  }

  lemma {:induction false} RowsForCons(firstId: int, command: CreateRecordingCommand, commands: seq<CreateRecordingCommand>)
    ensures RowsFor(firstId, [command] + commands) == [ToRecording(firstId, command)] + RowsFor(firstId + 1, commands)
  {
  }

  /**
   * A round whose head is stored, followed by a round on the rest of the queue.
   * The rest's outcome arrives as the single fact `restHolds`, so callers
   * hand it over whole rather than conjunct by conjunct.
   */
  lemma {:induction false} AcceptedHead(svc: RecordingService, accepts: Availability, maxBatchSize: nat,
                     after: RecordingService, m: nat, restHolds: bool)
    requires Valid(svc) && maxBatchSize > 0 && |svc.queue| > 0
    requires accepts(|svc.repo.attempts|, svc.queue[0])
    requires restHolds == RoundOutcome(HeadTried(svc, accepts), accepts, maxBatchSize - 1, after, m)
    requires restHolds
    ensures RoundOutcome(svc, accepts, maxBatchSize, after, m + 1)
  {
    var next := HeadTried(svc, accepts);
    HeadStored(svc, accepts);
    AcceptedHeadPrefix(svc, accepts, next, m);
    AcceptedHeadRows(svc, next, after, m);
    AcceptedHeadEnd(svc, accepts, maxBatchSize, next, after, m);
  }

  lemma {:induction false} AcceptedHeadRows(svc: RecordingService, next: RecordingService, after: RecordingService, m: nat)
    requires |svc.queue| > 0 && m < |svc.queue|
    requires next.queue == svc.queue[1..]
    requires next.repo.rows == svc.repo.rows + [ToRecording(|svc.repo.rows| + 1, svc.queue[0])]
    requires after.repo.rows == next.repo.rows + RowsFor(|next.repo.rows| + 1, next.queue[..m])
    ensures after.repo.rows == svc.repo.rows + RowsFor(|svc.repo.rows| + 1, svc.queue[..m + 1])
  {
    var q, rows := svc.queue, svc.repo.rows;
    var head := ToRecording(|rows| + 1, q[0]);
    var tail := RowsFor(|rows| + 2, next.queue[..m]);
    assert q[..m + 1] == [q[0]] + next.queue[..m];
    RowsForCons(|rows| + 1, q[0], next.queue[..m]);
    assert after.repo.rows == (rows + [head]) + tail;
    assert (rows + [head]) + tail == rows + ([head] + tail);
  }

  lemma {:induction false} AcceptedHeadPrefix(svc: RecordingService, accepts: Availability, next: RecordingService, m: nat)
    requires |svc.queue| > 0 && m < |svc.queue|
    requires accepts(|svc.repo.attempts|, svc.queue[0])
    requires next.queue == svc.queue[1..]
    requires |next.repo.attempts| == |svc.repo.attempts| + 1
    requires AcceptedPrefix(next, accepts, m)
    ensures AcceptedPrefix(svc, accepts, m + 1)
  {
    var q, tried := svc.queue, |svc.repo.attempts|;
    forall i | 0 <= i < m + 1 ensures accepts(tried + i, q[i]) {
      if i > 0 {
        assert next.queue[i - 1] == q[i];
      }
    }
  }

  lemma {:induction false} AcceptedHeadEnd(svc: RecordingService, accepts: Availability, maxBatchSize: nat,
                        next: RecordingService, after: RecordingService, m: nat)
    requires maxBatchSize > 0 && |svc.queue| > 0 && m < |svc.queue|
    requires next.queue == svc.queue[1..]
    requires next.repo.attempts == svc.repo.attempts + [svc.queue[0]]
    requires RoundEnd(next, accepts, maxBatchSize - 1, after, m)
    ensures RoundEnd(svc, accepts, maxBatchSize, after, m + 1)
  {
    var q, rest := svc.queue, next.queue;
    if m < maxBatchSize - 1 && m < |rest| {
      assert q[..m + 2] == [q[0]] + rest[..m + 1];
      assert rest[m + 1..] == q[m + 2..];
      assert rest[m] == q[m + 1];
    } else {
      assert q[..m + 1] == [q[0]] + rest[..m];
      assert rest[m..] == q[m + 1..];
    }
  }

  /** Every flush round is described by `RoundOutcome`. */
  lemma {:induction false} FlushOutcome(svc: RecordingService, accepts: Availability, maxBatchSize: nat)
    requires Valid(svc)
    ensures var r := FlushPendingMetadata(svc, accepts, maxBatchSize);
            RoundOutcome(svc, accepts, maxBatchSize, r.service, r.count)
    decreases maxBatchSize
  {
    var q := svc.queue;
    if maxBatchSize == 0 || |q| == 0 {
      EmptyRound(svc, accepts, maxBatchSize);
    } else {
      var next := HeadTried(svc, accepts);
      if accepts(|svc.repo.attempts|, q[0]) {
        FlushOutcome(next, accepts, maxBatchSize - 1);
        FlushAcceptedUnfold(svc, accepts, maxBatchSize);
        var rest := FlushPendingMetadata(next, accepts, maxBatchSize - 1);
        AcceptedHead(svc, accepts, maxBatchSize, rest.service, rest.count,
                     RoundOutcome(next, accepts, maxBatchSize - 1, rest.service, rest.count));
      } else {
        FlushRefusedUnfold(svc, accepts, maxBatchSize);
        RefusedHead(svc, accepts, maxBatchSize, RecordingService(next.repo, q[1..] + [q[0]]));
      }
    }
  }

  /** The service once the queue's head has been dequeued and passed to `create`. */
  function HeadTried(svc: RecordingService, accepts: Availability): RecordingService
    requires Valid(svc) && |svc.queue| > 0
  {
    RecordingService(Create(svc.repo, accepts, svc.queue[0]).repo, svc.queue[1..])
  }

  /** When the head is accepted it is appended to the rows under the next identity. */
  lemma {:induction false} HeadStored(svc: RecordingService, accepts: Availability)
    requires Valid(svc) && |svc.queue| > 0
    requires accepts(|svc.repo.attempts|, svc.queue[0])
    ensures HeadTried(svc, accepts).queue == svc.queue[1..]
    ensures HeadTried(svc, accepts).repo.attempts == svc.repo.attempts + [svc.queue[0]]
    ensures HeadTried(svc, accepts).repo.rows == svc.repo.rows + [ToRecording(|svc.repo.rows| + 1, svc.queue[0])]
  {
  }

  /** One step of a round whose head is stored: the rest of the round runs on the rest of the queue. */
  lemma {:induction false} FlushAcceptedUnfold(svc: RecordingService, accepts: Availability, maxBatchSize: nat)
    requires Valid(svc) && maxBatchSize > 0 && |svc.queue| > 0
    requires accepts(|svc.repo.attempts|, svc.queue[0])
    ensures var rest := FlushPendingMetadata(HeadTried(svc, accepts), accepts, maxBatchSize - 1);
            FlushPendingMetadata(svc, accepts, maxBatchSize) == Flushed(rest.service, rest.count + 1)
  {
    var taken := TryDequeue(svc.queue, BlankCommand);
    assert taken.command == svc.queue[0] && taken.queue == svc.queue[1..];
  }

  /** A round whose head is refused ends at once, the head going back to the tail. */
  lemma {:induction false} FlushRefusedUnfold(svc: RecordingService, accepts: Availability, maxBatchSize: nat)
    requires Valid(svc) && maxBatchSize > 0 && |svc.queue| > 0
    requires !accepts(|svc.repo.attempts|, svc.queue[0])
    ensures FlushPendingMetadata(svc, accepts, maxBatchSize)
         == Flushed(RecordingService(HeadTried(svc, accepts).repo, svc.queue[1..] + [svc.queue[0]]), 0)
  {
    var taken := TryDequeue(svc.queue, BlankCommand);
    assert taken.command == svc.queue[0] && taken.queue == svc.queue[1..];
  }

  /** Nothing is lost or duplicated by a flush: stored commands plus queued commands stay the same multiset. */
  lemma {:induction false} FlushConserves(svc: RecordingService, accepts: Availability, maxBatchSize: nat)
    requires Valid(svc)
    ensures var r := FlushPendingMetadata(svc, accepts, maxBatchSize);
            multiset(StoredCommands(r.service.repo.rows)) + multiset(r.service.queue)
              == multiset(StoredCommands(svc.repo.rows)) + multiset(svc.queue)
  {
    FlushOutcome(svc, accepts, maxBatchSize);
    var r := FlushPendingMetadata(svc, accepts, maxBatchSize);
    RoundConserves(svc, accepts, maxBatchSize, r.service, r.count);
  }

  /** Any round of the shape FlushOutcome describes keeps stored plus queued commands. */
  lemma {:induction false} RoundConserves(before: RecordingService, accepts: Availability, maxBatchSize: nat,
                       after: RecordingService, n: nat)
    requires RoundOutcome(before, accepts, maxBatchSize, after, n)
    ensures multiset(StoredCommands(after.repo.rows)) + multiset(after.queue)
              == multiset(StoredCommands(before.repo.rows)) + multiset(before.queue)
  {
    var q := before.queue;
    StoredRowsFor(before.repo.rows, |before.repo.rows| + 1, q[..n]);
    assert multiset(StoredCommands(after.repo.rows))
        == multiset(StoredCommands(before.repo.rows)) + multiset(q[..n]);
    if n < maxBatchSize && n < |q| {
      assert q == q[..n] + ([q[n]] + q[n + 1..]);
      assert multiset(after.queue) == multiset{q[n]} + multiset(q[n + 1..]);
    } else {
      assert q == q[..n] + q[n..];
    }
  }

  /** Rows stored for a run of commands give those commands back, after the earlier ones. */
  lemma {:induction false} StoredRowsFor(rows: seq<Recording>, firstId: int, commands: seq<CreateRecordingCommand>)
    ensures StoredCommands(rows + RowsFor(firstId, commands)) == StoredCommands(rows) + commands
  {
    var all := rows + RowsFor(firstId, commands);
    assert forall k :: |rows| <= k < |all| ==> all[k] == ToRecording(firstId + (k - |rows|), commands[k - |rows|]);
  }

  /** Registration keeps every command: it ends up stored or queued, exactly once. */
  lemma {:induction false} RegisterConserves(svc: RecordingService, accepts: Availability, command: CreateRecordingCommand)
    requires Valid(svc)
    ensures var r := RegisterSegment(svc, accepts, command);
            multiset(StoredCommands(r.service.repo.rows)) + multiset(r.service.queue)
              == multiset(StoredCommands(svc.repo.rows)) + multiset(svc.queue) + multiset{command}
  {
    var r := RegisterSegment(svc, accepts, command);
    if r.result.persisted {
      assert StoredCommands(r.service.repo.rows) == StoredCommands(svc.repo.rows) + [command];
    }
  }

  /**
   * The pending count the API reports: a registration the database refuses
   * raises it by exactly one, an accepted one leaves it, and a flush round
   * lowers it by the count it answers.
   */
  lemma {:induction false} PendingQueueSizeTracks(svc: RecordingService, accepts: Availability, command: CreateRecordingCommand,
                               maxBatchSize: nat)
    requires Valid(svc)
    ensures var r := RegisterSegment(svc, accepts, command);
            PendingQueueSize(r.service) == PendingQueueSize(svc) + (if r.result.persisted then 0 else 1)
    ensures var f := FlushPendingMetadata(svc, accepts, maxBatchSize);
            PendingQueueSize(f.service) + f.count == PendingQueueSize(svc)
  {
  }

  /** Draining an empty queue, or with a zero budget, answers 0 and changes nothing (no `create` call either). */
  lemma {:induction false} IdleFlush(svc: RecordingService, accepts: Availability, maxBatchSize: nat)
    requires Valid(svc)
    requires |svc.queue| == 0 || maxBatchSize == 0
    ensures FlushPendingMetadata(svc, accepts, maxBatchSize) == Flushed(svc, 0)
  {
  }

  /** When the database takes everything, a round stores `min(maxBatchSize, |queue|)` commands from the head. */
  lemma {:induction false} FlushWhileAvailable(svc: RecordingService, accepts: Availability, maxBatchSize: nat)
    requires Valid(svc)
    requires forall n: nat, c :: accepts(n, c)
    ensures var r := FlushPendingMetadata(svc, accepts, maxBatchSize);
            var k := if maxBatchSize < |svc.queue| then maxBatchSize else |svc.queue|;
            r.count == k && r.service.queue == svc.queue[k..]
  {
    FlushOutcome(svc, accepts, maxBatchSize);
  }

  /**
   * Partial failure, as the code behaves: queue [a, b, c] where only `b` is
   * refused. `a` is stored, `b` is refused and goes to the tail, `c` is not
   * tried, so the queue becomes [c, b]; a later registration that fails
   * queues after them.
   */
  lemma {:induction false} PartialFailureRound(svc: RecordingService, a: CreateRecordingCommand, b: CreateRecordingCommand,
                            c: CreateRecordingCommand, d: CreateRecordingCommand)
    requires Valid(svc)
    requires svc.queue == [a, b, c]
    requires a != b && c != b && d != b
    ensures var accepts: Availability := (n: nat, x: CreateRecordingCommand) => x != b;
            var r := FlushPendingMetadata(svc, accepts, 3);
            && r.count == 1
            && r.service.queue == [c, b]
            && r.service.repo.attempts == svc.repo.attempts + [a, b]
            && r.service.repo.rows == svc.repo.rows + [ToRecording(|svc.repo.rows| + 1, a)]
            && RegisterSegment(r.service, (n: nat, x: CreateRecordingCommand) => false, d).service.queue == [c, b, d]
  {
    var accepts: Availability := (n: nat, x: CreateRecordingCommand) => x != b;
    FlushOutcome(svc, accepts, 3);
    var r := FlushPendingMetadata(svc, accepts, 3);
    var q := svc.queue;
    assert accepts(|svc.repo.attempts|, q[0]);
    assert !accepts(|svc.repo.attempts| + 1, q[1]);
    assert r.count == 1;
    assert q[..2] == [a, b];
    assert q[..1] == [a];
    assert q[2..] == [c];
  }

  /** Recovery: three commands queued during an outage are all stored by one round of 3 once the database is back. */
  lemma {:induction false} RecoveryRound(svc: RecordingService, a: CreateRecordingCommand, b: CreateRecordingCommand,
                      c: CreateRecordingCommand)
    requires Valid(svc)
    requires svc.queue == [a, b, c]
    ensures var r := FlushPendingMetadata(svc, (n: nat, x: CreateRecordingCommand) => true, 3);
            r.count == 3 && PendingQueueSize(r.service) == 0
  {
    FlushWhileAvailable(svc, (n: nat, x: CreateRecordingCommand) => true, 3);
  }

  /** The calls the system makes on the service: a segment registration, or one round of the sync worker. */
  datatype Call = Register(command: CreateRecordingCommand) | Flush(maxBatchSize: nat)

  /** The service after one call. */
  function Apply(svc: RecordingService, accepts: Availability, call: Call): (r: RecordingService)
    requires Valid(svc)
    ensures Valid(r)
  {
    match call
    case Register(command) => RegisterSegment(svc, accepts, command).service
    case Flush(maxBatchSize) => FlushPendingMetadata(svc, accepts, maxBatchSize).service
  }

  /** The service after a sequence of calls, the first call first. */
  function Run(svc: RecordingService, accepts: Availability, calls: seq<Call>): (r: RecordingService)
    requires Valid(svc)
    ensures Valid(r)
    decreases |calls|
  {
    if |calls| == 0 then svc else Run(Apply(svc, accepts, calls[0]), accepts, calls[1..])
  }

  /** The commands registered by a sequence of calls. */
  function RegisteredCommands(calls: seq<Call>): seq<CreateRecordingCommand>
    decreases |calls|
  {
    if |calls| == 0 then []
    else (if calls[0].Register? then [calls[0].command] else []) + RegisteredCommands(calls[1..])
  }

  /** The stored commands and the queued commands together. */
  function Held(svc: RecordingService): multiset<CreateRecordingCommand>
  {
    multiset(StoredCommands(svc.repo.rows)) + multiset(svc.queue)
  }

  /** One call adds the command it registers, if any, and nothing else. */
  lemma {:induction false} ApplyConserves(svc: RecordingService, accepts: Availability, call: Call)
    requires Valid(svc)
    ensures Held(Apply(svc, accepts, call))
              == Held(svc) + multiset(if call.Register? then [call.command] else [])
  {
    match call
    case Register(command) => RegisterConserves(svc, accepts, command);
    case Flush(maxBatchSize) => FlushConserves(svc, accepts, maxBatchSize);
  }

  /**
   * No recording is silently dropped: whatever the database does, after any
   * sequence of registrations and flush rounds every registered command is
   * stored or queued, and nothing else appears.
   */
  lemma {:induction false} NothingDropped(svc: RecordingService, accepts: Availability, calls: seq<Call>)
    requires Valid(svc)
    ensures Held(Run(svc, accepts, calls)) == Held(svc) + multiset(RegisteredCommands(calls))
    decreases |calls|
  {
    if |calls| > 0 {
      var next := Apply(svc, accepts, calls[0]);
      ApplyConserves(svc, accepts, calls[0]);
      NothingDropped(next, accepts, calls[1..]);
      assert Run(svc, accepts, calls) == Run(next, accepts, calls[1..]);
      assert RegisteredCommands(calls)
        == (if calls[0].Register? then [calls[0].command] else []) + RegisteredCommands(calls[1..]);
    }
  }
}
