/**
 * The in-memory pending queue of recording commands that could not be
 * persisted at once: a FIFO without bound, deduplication or persistence.
 * Its mutex only serialises the operations below and is not modelled.
 */
module MetadataQueue {
  import opened Models

  /** Queue contents, head first. */
  type Queue = seq<CreateRecordingCommand>

  /** Appends `command` at the tail. */
  function Enqueue(q: Queue, command: CreateRecordingCommand): (r: Queue)
    ensures |r| == |q| + 1
    ensures r[..|q|] == q && r[|q|] == command
  {
    q + [command]
  }

  /** Outcome of `tryDequeue`: whether a command was taken, the out-parameter, the queue left. */
  datatype Dequeued = Dequeued(taken: bool, command: CreateRecordingCommand, queue: Queue)

  /**
   * Takes the head of the queue into the out-parameter `current`. On an empty
   * queue nothing is taken and `current` is left as it was.
   */
  function TryDequeue(q: Queue, current: CreateRecordingCommand): (r: Dequeued)
    ensures r.taken <==> |q| > 0
    ensures !r.taken ==> r.command == current && r.queue == q
    ensures r.taken ==> [r.command] + r.queue == q
    ensures r.taken ==> |r.queue| == |q| - 1
  {
    if |q| == 0 then Dequeued(false, current, q)
    else Dequeued(true, q[0], q[1..])
  }

  /** Number of queued commands. */
  function Size(q: Queue): nat {
    |q|
  }

  /** Enqueues `commands` one after another, first one first. */
  function EnqueueAll(q: Queue, commands: seq<CreateRecordingCommand>): Queue
    decreases |commands|
  {
    if |commands| == 0 then q else EnqueueAll(Enqueue(q, commands[0]), commands[1..])
  }

  /** Dequeues until `tryDequeue` reports empty; the commands in the order taken. */
  function Drain(q: Queue, current: CreateRecordingCommand): seq<CreateRecordingCommand>
    decreases |q|
  {
    var r := TryDequeue(q, current);
    if !r.taken then [] else [r.command] + Drain(r.queue, r.command)
  }

  /** Enqueueing a batch appends it in order; the size grows by the batch length. */
  lemma {:induction false} EnqueueAllAppends(q: Queue, commands: seq<CreateRecordingCommand>)
    ensures EnqueueAll(q, commands) == q + commands
    ensures Size(EnqueueAll(q, commands)) == Size(q) + |commands|
    decreases |commands|
  {
    if |commands| > 0 {
      EnqueueAllAppends(Enqueue(q, commands[0]), commands[1..]);
      assert q + [commands[0]] + commands[1..] == q + commands;
    }
  }

  /** Draining hands out exactly the queued commands, head first. */
  lemma {:induction false} DrainIsQueueOrder(q: Queue, current: CreateRecordingCommand)
    ensures Drain(q, current) == q
    decreases |q|
  {
    var r := TryDequeue(q, current);
    if r.taken {
      DrainIsQueueOrder(r.queue, r.command);
    }
  }

  /** FIFO: whatever is enqueued comes out after what was already queued, in enqueue order. */
  lemma {:induction false} Fifo(q: Queue, commands: seq<CreateRecordingCommand>, current: CreateRecordingCommand)
    ensures Drain(EnqueueAll(q, commands), current) == q + commands
  {
    EnqueueAllAppends(q, commands);
    DrainIsQueueOrder(q + commands, current);
  }

  /** Enqueue `a` then `b` on an empty queue: two dequeues yield `a`, then `b`, then the queue is empty. */
  lemma {:induction false} FifoPair(a: CreateRecordingCommand, b: CreateRecordingCommand, current: CreateRecordingCommand)
    ensures var first := TryDequeue(Enqueue(Enqueue([], a), b), current);
            var second := TryDequeue(first.queue, first.command);
            first.taken && first.command == a && second.taken && second.command == b
            && second.queue == [] && !TryDequeue(second.queue, second.command).taken
  {
    assert Enqueue(Enqueue([], a), b) == [a, b];
  }
}
