/**
 * The scoped lease: a move-only handle holding a pool and a connection,
 * which hands the connection back to the pool when it is destroyed. A
 * lease's operations are modelled by the releases they cause; a program of
 * leases is a row of lease slots that construct, move and destroy.
 */
module PooledConnection {
  import opened Wrappers
  import opened ConnectionPool

  /** A pool, identified by the handle the lease shares. */
  type PoolId = nat

  /** The lease's two shared pointers; None stands for a null pointer. */
  datatype Lease = Lease(pool: Option<PoolId>, conn: Option<Conn>)

  /** What a moved-from lease holds. */
  const Empty: Lease := Lease(None, None)

  /** One call of `release(conn)` on pool `pool`. */
  datatype Released = Released(pool: PoolId, conn: Conn)

  /** Whether destroying the lease would release something. */
  predicate Holds(l: Lease) {
    l.pool.Some? && l.conn.Some?
  }

  /** The destructor: the connection goes back exactly when pool and connection are both non-null. */
  function Destroy(l: Lease): (events: seq<Released>)
    ensures |events| <= 1
    ensures |events| == 1 <==> l.pool.Some? && l.conn.Some?
    ensures |events| == 1 ==> events[0] == Released(l.pool.value, l.conn.value)
  {
    if l.pool.Some? && l.conn.Some? then [Released(l.pool.value, l.conn.value)] else []
  }

  /** The move constructor: the new lease takes both pointers and the source is left null. */
  function MoveConstruct(source: Lease): (r: (Lease, Lease))
    ensures r.0 == source
    ensures Destroy(r.1) == []
  {
    (source, Empty)
  }

  /**
   * Move assignment `target = std::move(source)`. When both name the same
   * object (`aliased`) nothing happens; otherwise the target first releases
   * what it held, then takes the source's pointers, and the source is left
   * null.
   */
  function MoveAssign(target: Lease, source: Lease, aliased: bool): (r: (Lease, Lease, seq<Released>))
    requires aliased ==> target == source
    ensures aliased ==> r == (target, source, [])
    ensures !aliased ==> r.0 == source && r.1 == Empty && r.2 == Destroy(target)
  {
    if aliased then (target, source, [])
    else (source, Empty, Destroy(target))
  }

  /** `get`: the connection the lease holds; calling it on a null lease is undefined in the code. */
  function Get(l: Lease): (c: Conn)
    requires l.conn.Some?
    ensures Some(c) == l.conn
  {
    l.conn.value
  }

  /** A move hands over the very connection the source held, and nothing is released. */
  lemma {:induction false} MoveKeepsConnection(source: Lease, target: Lease)
    requires source.conn.Some?
    ensures Get(MoveConstruct(source).0) == Get(source)
    ensures var (t, s, events) := MoveAssign(target, source, false);
            Get(t) == Get(source) && Destroy(s) == [] && events == Destroy(target)
  {
  }

  /** What destroying one lease would release, as a multiset. */
  function Debt(l: Lease): (m: multiset<Released>)
    ensures m == multiset(Destroy(l))
  {
    if Holds(l) then multiset{Released(l.pool.value, l.conn.value)} else multiset{}
  }

  /** What the lease slots of a program still owe their pools. */
  function Owed(slots: seq<Lease>): multiset<Released>
    decreases |slots|
  {
    if |slots| == 0 then multiset{}
    else Owed(slots[..|slots| - 1]) + Debt(slots[|slots| - 1])
  }

  /** Owed, peeled at the last slot. */
  lemma {:induction false} OwedLast(slots: seq<Lease>)
    requires |slots| > 0
    ensures Owed(slots) == Owed(slots[..|slots| - 1]) + Debt(slots[|slots| - 1])
  {
  }

  /** Replacing one slot changes what is owed by the difference between the two leases. */
  lemma {:induction false} OwedUpdate(slots: seq<Lease>, i: nat, l: Lease)
    requires i < |slots|
    ensures Owed(slots[i := l]) + Debt(slots[i]) == Owed(slots) + Debt(l)
    decreases |slots|
  {
    var n := |slots| - 1;
    var updated := slots[i := l];
    OwedLast(slots);
    OwedLast(updated);
    if i == n {
      assert updated[..n] == slots[..n];
    } else {
      var front := slots[..n];
      assert updated[..n] == front[i := l];
      OwedUpdate(front, i, l);
      OwedShuffle(Owed(front[i := l]), Owed(front), Debt(slots[n]), Debt(slots[i]), Debt(l));
    }
  }

  /** The multiset step of OwedUpdate: from `a + di == b + dl` to the same with `dn` added on both sides. */
  lemma {:induction false} OwedShuffle(a: multiset<Released>, b: multiset<Released>, dn: multiset<Released>,
                    di: multiset<Released>, dl: multiset<Released>)
    requires a + di == b + dl
    ensures (a + dn) + di == (b + dn) + dl
  {
    calc {
      (a + dn) + di;
      (a + di) + dn;
      (b + dl) + dn;
      (b + dn) + dl;
    }
  }

  /** Appending a slot adds what it owes. */
  lemma {:induction false} OwedAppend(slots: seq<Lease>, l: Lease)
    ensures Owed(slots + [l]) == Owed(slots) + Debt(l)
  {
    assert (slots + [l])[..|slots|] == slots;
  }

  /** What a program does with its lease slots. */
  datatype LeaseStep =
    | MoveInto(source: nat)          // a new slot is move-constructed from `source`
    | Assign(target: nat, source: nat) // `target = std::move(source)`; the same slot is a self-assignment
    | End(slot: nat)                  // the slot's lease is destroyed; the slot is dead (empty) afterwards

  /** Whether the step names existing slots. */
  predicate StepFits(slots: seq<Lease>, step: LeaseStep) {
    match step
    case MoveInto(source) => source < |slots|
    case Assign(target, source) => target < |slots| && source < |slots|
    case End(slot) => slot < |slots|
  }

  /** The slots after a step, and the releases it causes. */
  function Step(slots: seq<Lease>, step: LeaseStep): (r: (seq<Lease>, seq<Released>))
    requires StepFits(slots, step)
    ensures Owed(r.0) + multiset(r.1) == Owed(slots)
    ensures |r.1| <= 1
  {
    match step
    case MoveInto(source) =>
      var (made, left) := MoveConstruct(slots[source]);
      var after := slots[source := left] + [made];
      OwedUpdate(slots, source, left);
      OwedAppend(slots[source := left], made);
      (after, [])
    case Assign(target, source) =>
      if target == source then
        var (t, _, events) := MoveAssign(slots[target], slots[source], true);
        (slots, events)
      else
        var (t, s, events) := MoveAssign(slots[target], slots[source], false);
        var mid := slots[source := s];
        OwedUpdate(slots, source, s);
        OwedUpdate(mid, target, t);
        (mid[target := t], events)
    case End(slot) =>
      OwedUpdate(slots, slot, Empty);
      (slots[slot := Empty], Destroy(slots[slot]))
  }

  /** Whether every step of a program names existing slots when it runs. */
  predicate Fits(slots: seq<Lease>, steps: seq<LeaseStep>)
    decreases |steps|
  {
    |steps| == 0 || (StepFits(slots, steps[0]) && Fits(Step(slots, steps[0]).0, steps[1..]))
  }

  /** The slots at the end of a program and every release it caused, in order. */
  function RunLeases(slots: seq<Lease>, steps: seq<LeaseStep>): (r: (seq<Lease>, seq<Released>))
    requires Fits(slots, steps)
    decreases |steps|
  {
    if |steps| == 0 then (slots, [])
    else
      var (next, events) := Step(slots, steps[0]);
      var (last, more) := RunLeases(next, steps[1..]);
      (last, events + more)
  }

  /**
   * Released exactly once: over any program of moves, self-assignments and
   * destructions, what the slots still owe plus what was released is what
   * they owed at the start. So no lease's connection is released twice, and
   * once every slot is destroyed each held connection has gone back once.
   */
  lemma {:induction false} ReleasedOnce(slots: seq<Lease>, steps: seq<LeaseStep>)
    requires Fits(slots, steps)
    ensures var (last, events) := RunLeases(slots, steps);
            Owed(last) + multiset(events) == Owed(slots)
    decreases |steps|
  {
    if |steps| > 0 {
      var (next, events) := Step(slots, steps[0]);
      ReleasedOnce(next, steps[1..]);
      var (last, more) := RunLeases(next, steps[1..]);
      assert RunLeases(slots, steps) == (last, events + more);
      assert multiset(events + more) == multiset(events) + multiset(more);
    }
  }

  /** A program that ends with nothing owed has released each held connection exactly once. */
  lemma {:induction false} AllReturned(slots: seq<Lease>, steps: seq<LeaseStep>)
    requires Fits(slots, steps)
    requires Owed(RunLeases(slots, steps).0) == multiset{}
    ensures multiset(RunLeases(slots, steps).1) == Owed(slots)
  {
    ReleasedOnce(slots, steps);
  }
}
