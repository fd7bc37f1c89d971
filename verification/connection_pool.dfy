/**
 * The PostgreSQL connection pool as a sequential state machine: a queue of
 * idle connections and a count of connections the pool has opened and not
 * yet written off, bounded by the pool size. Opening a connection and
 * asking whether one is still open are outside the model: their outcomes
 * are parameters. The condition-variable wait of `acquire` is expressed as
 * the step not being enabled.
 */
module ConnectionPool {
  import opened Wrappers

  /** A connection, identified by the handle the pool hands out. */
  type Conn = nat

  const ZeroPoolSizeMessage: string := "Postgres connection pool size must be greater than zero"
  const CannotOpenMessage: string := "Cannot open PostgreSQL connection"

  /** Pool state: its capacity, the idle connections (oldest first) and the active count. */
  datatype Pool = Pool(poolSize: nat, available: seq<Conn>, active: nat)

  /** The active count never exceeds the capacity. */
  predicate Bounded(p: Pool) {
    p.active <= p.poolSize
  }

  /** The constructor: a zero capacity is refused; otherwise the pool starts with nothing opened. */
  function NewPool(poolSize: nat): (r: Result<Pool, string>)
    ensures r.Failure? <==> poolSize == 0
    ensures r.Failure? ==> r.error == ZeroPoolSizeMessage
    ensures r.Success? ==> Bounded(r.value) && r.value.poolSize == poolSize
    ensures r.Success? ==> r.value.available == [] && r.value.active == 0
  {
    if poolSize == 0 then Failure(ZeroPoolSizeMessage) else Success(Pool(poolSize, [], 0))
  }

  /** `acquire` returns without waiting exactly when an idle connection exists or there is room to open one. */
  predicate AcquireEnabled(p: Pool) {
    |p.available| > 0 || p.active < p.poolSize
  }

  /** The pool after `acquire` and what the caller gets: a connection, or the error raised. */
  datatype Acquired = Acquired(pool: Pool, conn: Result<Conn, string>)

  /**
   * What constructing a new connection does: it yields an open connection,
   * it yields one that reports itself closed, or the constructor throws
   * (libpqxx reports a failed connect by throwing, with its own message).
   */
  datatype OpenOutcome = Opened | OpenedClosed | OpenThrew(message: string)

  /**
   * `acquire`, when it does not wait. An idle connection is reused first,
   * oldest first; otherwise the count is raised and a new connection `newConn`
   * is constructed. A connection that reports itself closed takes the count
   * back and raises an error. A throwing constructor leaves the function
   * before that rollback, so the raised count stays.
   */
  function Acquire(p: Pool, open: OpenOutcome, newConn: Conn): (r: Acquired)
    requires AcquireEnabled(p)
    ensures r.pool.poolSize == p.poolSize
    ensures Bounded(p) ==> Bounded(r.pool)
    ensures |p.available| > 0 ==>
              r == Acquired(Pool(p.poolSize, p.available[1..], p.active), Success(p.available[0]))
    ensures |p.available| == 0 && open.Opened? ==>
              r.conn == Success(newConn) && r.pool.active == p.active + 1 && r.pool.available == []
    ensures |p.available| == 0 && open.OpenedClosed? ==> r == Acquired(p, Failure(CannotOpenMessage))
    ensures |p.available| == 0 && open.OpenThrew? ==>
              r.conn == Failure(open.message) && r.pool.active == p.active + 1 && r.pool.available == []
  {
    if |p.available| > 0 then
      Acquired(p.(available := p.available[1..]), Success(p.available[0]))
    else
      var raised := p.(active := p.active + 1);
      match open
      case Opened => Acquired(raised, Success(newConn))
      case OpenedClosed => Acquired(raised.(active := raised.active - 1), Failure(CannotOpenMessage))
      case OpenThrew(message) => Acquired(raised, Failure(message))
  }

  /** `k` acquires in a row, each constructing a connection that throws, stopping once one would wait. */
  function ThrowingOpens(p: Pool, k: nat, message: string): (r: Pool)
    decreases k
  {
    if k == 0 || !AcquireEnabled(p) then p
    else ThrowingOpens(Acquire(p, OpenThrew(message), 0).pool, k - 1, message)
  }

  /**
   * A fresh pool whose connects all throw is used up by `poolSize` calls:
   * nothing is idle or held, yet every later `acquire` waits forever, as
   * nothing is left to release.
   */
  lemma {:induction false} ThrowingOpensExhaust(poolSize: nat, message: string)
    requires poolSize > 0
    ensures var p := ThrowingOpens(NewPool(poolSize).value, poolSize, message);
            p.available == [] && p.active == poolSize && !AcquireEnabled(p)
  {
    ThrowingOpensCount(NewPool(poolSize).value, poolSize, message);
  }

  /** Each throwing open from a pool with nothing idle raises the count by one, up to the size. */
  lemma {:induction false} ThrowingOpensCount(p: Pool, k: nat, message: string)
    requires p.available == [] && p.active + k <= p.poolSize
    ensures ThrowingOpens(p, k, message) == Pool(p.poolSize, [], p.active + k)
    decreases k
  {
    if k > 0 {
      ThrowingOpensCount(Acquire(p, OpenThrew(message), 0).pool, k - 1, message);
    }
  }

  /**
   * `release`: an open connection goes to the tail of the idle queue; a
   * null or closed one is written off, the count dropping by one but never
   * below zero.
   */
  function Release(p: Pool, conn: Option<Conn>, isOpen: bool): (r: Pool)
    ensures r.poolSize == p.poolSize
    ensures Bounded(p) ==> Bounded(r)
    ensures conn.Some? && isOpen ==> r.available == p.available + [conn.value] && r.active == p.active
    ensures conn.None? || !isOpen ==>
              r.available == p.available && (if p.active > 0 then r.active == p.active - 1 else r.active == 0)
  {
    if conn.None? || !isOpen then
      p.(active := if p.active > 0 then p.active - 1 else 0)
    else
      p.(available := p.available + [conn.value])
  }

  /**
   * The pool together with the connections its callers hold. The
   * bookkeeping is exact when every connection is either idle or leased
   * and counted once.
   */
  datatype Ledger = Ledger(pool: Pool, leased: multiset<Conn>)

  /** Idle plus leased connections make up the active count. */
  predicate Accounted(l: Ledger) {
    |l.pool.available| + |l.leased| == l.pool.active
  }

  /** `acquire` as the ledger sees it: a connection handed out is now leased. */
  function LedgerAcquire(l: Ledger, open: OpenOutcome, newConn: Conn): (r: (Ledger, Result<Conn, string>))
    requires AcquireEnabled(l.pool)
    ensures r.1 == Acquire(l.pool, open, newConn).conn
    ensures r.0.pool == Acquire(l.pool, open, newConn).pool
    ensures r.1.Success? ==> r.0.leased == l.leased + multiset{r.1.value}
    ensures r.1.Failure? ==> r.0.leased == l.leased
  {
    var a := Acquire(l.pool, open, newConn);
    match a.conn
    case Success(c) => (Ledger(a.pool, l.leased + multiset{c}), a.conn)
    case Failure(_) => (Ledger(a.pool, l.leased), a.conn)
  }

  /** `release` of a leased connection, open or found closed. */
  function LedgerRelease(l: Ledger, conn: Conn, isOpen: bool): (r: Ledger)
    requires conn in l.leased
    ensures r.leased == l.leased - multiset{conn}
    ensures r.pool == Release(l.pool, Some(conn), isOpen)
  {
    Ledger(Release(l.pool, Some(conn), isOpen), l.leased - multiset{conn})
  }

  /**
   * Acquiring keeps the books exact, except when a new connection's
   * constructor throws: then one count is held by nobody.
   */
  lemma {:induction false} AcquireAccounted(l: Ledger, open: OpenOutcome, newConn: Conn)
    requires AcquireEnabled(l.pool)
    requires Accounted(l)
    ensures var after := LedgerAcquire(l, open, newConn).0;
            Accounted(after) <==> |l.pool.available| > 0 || !open.OpenThrew?
    ensures var after := LedgerAcquire(l, open, newConn).0;
            |l.pool.available| == 0 && open.OpenThrew? ==>
              after.pool.active == |after.pool.available| + |after.leased| + 1
  {
    var after := LedgerAcquire(l, open, newConn).0;
    if |l.pool.available| > 0 {
      assert |after.pool.available| == |l.pool.available| - 1;
    }
  }

  /**
   * Releasing a connection that was leased from this pool keeps the books
   * exact, whether it goes back to the idle queue or is written off. The
   * code does not check where a released connection came from, so this is
   * the caller's obligation.
   */
  lemma {:induction false} ReleaseAccounted(l: Ledger, conn: Conn, isOpen: bool)
    requires conn in l.leased
    requires Accounted(l)
    ensures Accounted(LedgerRelease(l, conn, isOpen))
  {
    var before := l.leased;
    assert |before - multiset{conn}| == |before| - 1 by {
      assert before == (before - multiset{conn}) + multiset{conn};
    }
  }

  /**
   * Releasing a null handle when the books are exact breaks them (when
   * something is active): the count drops though nothing was leased back.
   * This is why the exact bookkeeping needs releases of leased connections.
   */
  lemma {:induction false} NullReleaseUnbalances(l: Ledger)
    requires Accounted(l) && l.pool.active > 0
    ensures !Accounted(Ledger(Release(l.pool, None, true), l.leased))
  {
  }

  /** Under exact books the pool is never waiting while nothing is leased. */
  lemma {:induction false} IdlePoolServes(l: Ledger)
    requires Accounted(l) && Bounded(l.pool) && l.pool.poolSize > 0
    requires |l.leased| == 0
    ensures AcquireEnabled(l.pool)
  {
  }

  /**
   * A pool of two: two acquires open two connections, a third must wait,
   * and once the first is released the third gets it back without opening
   * anything.
   */
  lemma {:induction false} PoolOfTwo(c1: Conn, c2: Conn, c3: Conn)
    ensures var p0 := NewPool(2).value;
            var a1 := Acquire(p0, Opened, c1);
            var a2 := Acquire(a1.pool, Opened, c2);
            && a1.conn == Success(c1) && a2.conn == Success(c2)
            && a2.pool.active == 2
            && !AcquireEnabled(a2.pool)
            && var p3 := Release(a2.pool, Some(c1), true);
               AcquireEnabled(p3) && Acquire(p3, Opened, c3) == Acquired(Pool(2, [], 2), Success(c1))
  {
  }
}
