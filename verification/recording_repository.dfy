/**
 * The recordings repository as the service sees it: a table of stored
 * recordings plus the record of every `create` attempt. Whether an attempt
 * commits is decided by an availability oracle standing for the database
 * and the network; identities are issued in insertion order, 1 first, as a
 * serial column does.
 */
module RecordingRepository {
  import opened Wrappers
  import opened Models

  /** The stored rows (oldest first) and every command ever passed to `create`. */
  datatype Repository = Repository(rows: seq<Recording>, attempts: seq<CreateRecordingCommand>)

  /**
   * Whether the `n`-th call of `create` (counting from 0) commits the given
   * command; a `false` stands for any database error.
   */
  type Availability = (nat, CreateRecordingCommand) -> bool

  /** Row `k` carries identity `k + 1`. */
  ghost predicate Valid(repo: Repository) {
    forall k :: 0 <= k < |repo.rows| ==> repo.rows[k].recordId == k + 1
  }

  /** The commands the stored rows were created from, oldest first. */
  function StoredCommands(rows: seq<Recording>): (cs: seq<CreateRecordingCommand>)
    ensures |cs| == |rows|
    ensures forall k :: 0 <= k < |rows| ==> cs[k] == ToCommand(rows[k])
  {
    seq(|rows|, k requires 0 <= k < |rows| => ToCommand(rows[k]))
  }

  /** Outcome of `create`: the repository afterwards and the new identity, None when it failed. */
  datatype Created = Created(repo: Repository, id: Option<int>)

  /**
   * `create(command)`: one attempt. On success the command is stored under a
   * fresh identity; on failure nothing is stored. A commit that the server
   * completes but that still throws to the caller is outside the model.
   */
  function Create(repo: Repository, accepts: Availability, command: CreateRecordingCommand): (r: Created)
    requires Valid(repo)
    ensures Valid(r.repo)
    ensures r.repo.attempts == repo.attempts + [command]
    ensures r.id.Some? <==> accepts(|repo.attempts|, command)
    ensures r.id.Some? ==> r.repo.rows == repo.rows + [ToRecording(r.id.value, command)]
    ensures r.id.Some? ==> r.id.value == |repo.rows| + 1
    ensures r.id.None? ==> r.repo.rows == repo.rows
  {
    var attempts := repo.attempts + [command];
    if accepts(|repo.attempts|, command) then
      var id := |repo.rows| + 1;
      Created(Repository(repo.rows + [ToRecording(id, command)], attempts), Some(id))
    else
      Created(Repository(repo.rows, attempts), None)
  }

  /** `findById`: the stored recording with identity `id`, if any. */
  function FindById(repo: Repository, id: int): (r: Option<Recording>)
    requires Valid(repo)
    ensures r.Some? <==> exists k :: 0 <= k < |repo.rows| && repo.rows[k].recordId == id
    ensures r.Some? ==> r.value in repo.rows && r.value.recordId == id
  {
    if 1 <= id <= |repo.rows| then Some(repo.rows[id - 1]) else None
  }

  /** The rows a query selects: its camera, capture time within `[fromUnix, toUnix]` inclusive. */
  predicate Matches(query: RecordingQuery, recording: Recording) {
    recording.deviceId == query.cameraId && query.fromUnix <= recording.unixTime <= query.toUnix
  }

  predicate SortedByTime(rs: seq<Recording>) {
    forall i, j :: 0 <= i < j < |rs| ==> rs[i].unixTime <= rs[j].unixTime
  }

  /** Inserts `x` into a list sorted by capture time, after the rows with an equal time. */
  function InsertByTime(x: Recording, rs: seq<Recording>): (r: seq<Recording>)
    requires SortedByTime(rs)
    ensures SortedByTime(r)
    ensures multiset(r) == multiset(rs) + multiset{x}
    ensures forall k :: 0 <= k < |r| ==> r[k] == x || r[k] in rs
  {
    if |rs| == 0 then [x]
    else if x.unixTime < rs[0].unixTime then
      SortedCons(x, rs);
      [x] + rs
    else
      var tail := InsertByTime(x, rs[1..]);
      assert forall k :: 0 <= k < |tail| ==> rs[0].unixTime <= tail[k].unixTime;
      SortedCons(rs[0], tail);
      assert rs == [rs[0]] + rs[1..];
      [rs[0]] + tail
  }

  /** A row no later than every row of a sorted list can go in front of it. */
  lemma {:induction false} SortedCons(y: Recording, rs: seq<Recording>)
    requires SortedByTime(rs)
    requires forall k :: 0 <= k < |rs| ==> y.unixTime <= rs[k].unixTime
    ensures SortedByTime([y] + rs)
  {
    var all := [y] + rs;
    forall i, j | 0 <= i < j < |all|
      ensures all[i].unixTime <= all[j].unixTime
    {
      assert all[j] == rs[j - 1];
      if i > 0 {
        assert all[i] == rs[i - 1];
      }
    }
  }

  /** Sorts by capture time (insertion sort; rows with equal times keep their order). */
  function SortByTime(rs: seq<Recording>): (r: seq<Recording>)
    ensures SortedByTime(r)
    ensures multiset(r) == multiset(rs)
  {
    if |rs| == 0 then []
    else
      assert rs == rs[..|rs| - 1] + [rs[|rs| - 1]];
      InsertByTime(rs[|rs| - 1], SortByTime(rs[..|rs| - 1]))
  }

  /** The rows a query selects, in storage order. */
  function Select(query: RecordingQuery, rows: seq<Recording>): (r: seq<Recording>)
    ensures forall x :: x in r ==> x in rows && Matches(query, x)
    ensures forall x :: x in rows && Matches(query, x) ==> multiset(r)[x] == multiset(rows)[x]
  {
    if |rows| == 0 then []
    else
      var rest := Select(query, rows[1..]);
      assert rows == [rows[0]] + rows[1..];
      if Matches(query, rows[0]) then [rows[0]] + rest else rest
  }

  /**
   * `findByCameraAndRange`: every stored row of the camera whose capture
   * time lies in the closed interval, each exactly as often as stored,
   * ascending by capture time.
   */
  function FindByCameraAndRange(repo: Repository, query: RecordingQuery): (r: seq<Recording>)
    ensures SortedByTime(r)
    ensures forall x :: x in r <==> x in repo.rows && Matches(query, x)
    ensures forall x :: x in repo.rows && Matches(query, x) ==> multiset(r)[x] == multiset(repo.rows)[x]
  {
    var selected := Select(query, repo.rows);
    var r := SortByTime(selected);
    assert forall x :: x in r <==> x in selected by {
      forall x ensures x in r <==> x in selected {
        assert x in r <==> multiset(r)[x] > 0;
        assert x in selected <==> multiset(selected)[x] > 0;
      }
    }
    r
  }
}
