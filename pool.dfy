/** The pool object of `src/lib.rs`: the bounds it is built with, the
    channel of idle connections, the mutex-guarded live count, the lease
    handed to callers and released on drop, and the reaper tick. A call of
    `get_connection` holds the count mutex and then the receiver for its
    whole run, and a reaper tick holds the receiver, so neither interleaves
    with another call of its kind. A release takes no lock: it is one push
    to the back of the channel, placed here before or after a whole call.
    The lock-order deadlock between the reaper and `get_connection` is not
    captured by these sequential steps. */
module Pool {
  import opened PoolTypes
  import opened Acquisition
  import opened Reaper

  /** The two assertions of the constructor, in the order they are made. */
  datatype ConfigError = MinIsZero | MaxBelowMin

  datatype Result<+T> = Ok(value: T) | Err(error: ConfigError)

  /** Which assertion of the constructor fails on these bounds, if any. */
  function BoundsError(max: U8, min: U8): (e: Option<ConfigError>)
    ensures e.None? <==> 0 < min <= max
    ensures e == Some(MinIsZero) <==> min == 0
    ensures e == Some(MaxBelowMin) <==> 0 < min && max < min
  {
    if min == 0 then Some(MinIsZero)
    else if max < min then Some(MaxBelowMin)
    else None
  }

  class ConnectionPool {
    const max: U8
    const min: U8
    /** The connections buffered in the channel, oldest first. */
    var queue: seq<Conn>
    /** The counter behind the count mutex. */
    var live: U8
    /** The leases handed out and not yet dropped. */
    ghost var Leases: set<Lease>

    /** What holds of every pool: the bounds passed the constructor's
        checks, and each outstanding lease belongs to this pool and still
        holds its connection. */
    ghost predicate Valid()
      reads this, Leases
    {
      && 0 < min <= max
      && forall l :: l in Leases ==> l.pool == this && l.conn.Some?
    }

    /** The bookkeeping the pool is meant to keep: the count is within
        `max` and equals the idle connections plus the leased ones. */
    ghost predicate Balanced()
      reads this
    {
      live <= max && |queue| + |Leases| == live
    }

    constructor (max: U8, min: U8)
      requires 0 < min <= max
      ensures Valid() && Balanced()
      ensures this.max == max && this.min == min
      ensures queue == [] && live == 0 && Leases == {}
    {
      this.max, this.min := max, min;
      queue, live := [], 0;
      Leases := {};
    }

    /** `GenericConnectionPool::new`: the bounds are checked first; a pool
        starts with an empty channel and a count of zero. */
    static method New(max: U8, min: U8) returns (r: Result<ConnectionPool>)
      ensures r.Err? <==> BoundsError(max, min).Some?
      ensures r.Err? ==> Some(r.error) == BoundsError(max, min)
      ensures r.Ok? ==> && fresh(r.value) && r.value.Valid() && r.value.Balanced()
                        && r.value.max == max && r.value.min == min
                        && r.value.queue == [] && r.value.live == 0 && r.value.Leases == {}
    {
      var e := BoundsError(max, min);
      if e.Some? {
        return Err(e.value);
      }
      var p := new ConnectionPool(max, min);
      return Ok(p);
    }

    /** `get_connection`. `connects` are the answers of the successive
        `connect()` calls this acquisition makes. The result and the new
        state are those of `AcquireFrom` on the state at entry, whose count
        is also the snapshot the `max` check reads. */
    method GetConnection(connects: seq<Option<Conn>>) returns (r: AcquireOutcome, lease: Lease?)
      requires Valid()
      modifies this
      ensures Valid()
      ensures Attempt(r, State(queue, live)) == AcquireFrom(max, old(live), State(old(queue), old(live)), connects)
      ensures r.Acquired? <==> lease != null
      ensures lease != null ==> fresh(lease) && lease.pool == this && lease.conn == Some(r.conn)
      ensures Leases == if lease != null then old(Leases) + {lease} else old(Leases)
      ensures old(Balanced()) ==> Balanced()
    {
      var snapshot := live;
      var i := 0;
      while true
        invariant i <= |connects|
        invariant live <= snapshot == old(live)
        invariant Valid() && Leases == old(Leases)
        invariant AcquireFrom(max, snapshot, State(queue, live), connects[i..])
               == AcquireFrom(max, snapshot, State(old(queue), old(live)), connects)
        invariant old(Balanced()) ==> |queue| + |Leases| == live
        decreases |queue| + |connects| - i
      {
        if queue != [] {
          var c := queue[0];
          queue := queue[1..];
          if c.alive {
            r := Acquired(c);
            lease := new Lease(this, c);
            Leases := Leases + {lease};
            return;
          } else if live > 0 {
            live := live - 1;
          }
        } else if snapshot < max {
          if i == |connects| {
            return Retrying, null;
          }
          var answer := connects[i];
          assert connects[i..][1..] == connects[i + 1..];
          i := i + 1;
          if answer.Some? {
            live := live + 1;
            r := Acquired(answer.value);
            lease := new Lease(this, answer.value);
            Leases := Leases + {lease};
            return;
          }
        } else {
          return WouldBlock, null;
        }
      }
    }

    /** One run of the reaper job. The result and the new state are those
        of `Reap` on the state it finds. */
    method ReaperTick() returns (outcome: ReapOutcome)
      requires Valid()
      modifies this
      ensures Valid() && Leases == old(Leases)
      ensures Tick(outcome, State(queue, live)) == Reap(max, State(old(queue), old(live)))
      ensures old(Balanced()) ==> queue == old(queue) && live == old(live) && Balanced()
    {
      while true
        invariant Valid() && Leases == old(Leases)
        invariant Reap(max, State(queue, live)) == Reap(max, State(old(queue), old(live)))
        invariant old(Balanced()) ==> queue == old(queue) && live == old(live)
        decreases |queue|
      {
        if live <= max {
          return Skipped;
        }
        if queue == [] {
          return Blocked;
        }
        var c := queue[0];
        queue := queue[1..];
        if c.alive {
          queue := queue + [c];
          return Requeued;
        }
        if live == 255 {
          return Overflowed;
        }
        live := live + 1;
      }
    }
  }

  /** `LiveConnection`: the caller's exclusive hold on one connection. The
      connection sits in an `Option` that the release takes out. */
  class Lease {
    const pool: ConnectionPool
    var conn: Option<Conn>

    constructor (pool: ConnectionPool, c: Conn)
      ensures this.pool == pool && conn == Some(c)
    {
      this.pool := pool;
      conn := Some(c);
    }

    /** Dropping the lease: its connection goes to the back of the channel,
        unchecked, and the count is left alone. A lease whose connection
        was already taken adds nothing. */
    method Release()
      requires pool.Valid()
      requires this in pool.Leases <==> conn.Some?
      modifies this, pool
      ensures pool.Valid() && conn.None?
      ensures pool.queue == old(pool.queue) + (if old(conn).Some? then [old(conn).value] else [])
      ensures pool.live == old(pool.live)
      ensures pool.Leases == old(pool.Leases) - {this}
      ensures old(pool.Balanced()) ==> pool.Balanced()
    {
      if conn.Some? {
        pool.queue := pool.queue + [conn.value];
        pool.Leases := pool.Leases - {this};
        conn := None;
      }
    }
  }

  /** Two callers take both connections a pool of `max` 2 allows, and a
      third finds nothing it may take. After one release, a fourth call
      gets the released connection back; it stands for the blocked third
      caller, woken by the release and trying again, since no other caller
      can get in while one is blocked. */
  method ScenarioExhaustThenReuse()
  {
    var created := ConnectionPool.New(2, 1);
    var p := created.value;
    var a, la := p.GetConnection([Some(Conn(1, true))]);
    assert a == Acquired(Conn(1, true));
    var b, lb := p.GetConnection([Some(Conn(2, true))]);
    assert b == Acquired(Conn(2, true)) && p.live == 2;
    var c, lc := p.GetConnection([Some(Conn(3, true))]);
    assert c == WouldBlock && lc == null;
    la.Release();
    assert p.queue == [Conn(1, true)];
    var d, ld := p.GetConnection([Some(Conn(4, true))]);
    assert d == Acquired(Conn(1, true)) && p.live == 2 && p.queue == [];
  }

  /** A pool of `max` 1 whose only connection answers `is_alive()` with
      false once it is back in the channel. The connector hands it out
      already dead here, since a connection's answer is fixed; the pool
      cannot tell this from one that died while leased, because nothing
      checks a connection at creation or at release. The next caller drains
      it and then blocks, with a count of 0 and no lease outstanding that
      could ever wake it. */
  method ScenarioDeadConnectionBlocks()
  {
    var created := ConnectionPool.New(1, 1);
    var p := created.value;
    var a, la := p.GetConnection([Some(Conn(1, false))]);
    assert a == Acquired(Conn(1, false));
    la.Release();
    assert p.queue == [Conn(1, false)] && p.live == 1;
    var b, lb := p.GetConnection([Some(Conn(2, true))]);
    assert b == WouldBlock && p.live == 0 && p.queue == [] && p.Leases == {};
  }

  /** Five connections released into a pool with `min` 2 and `max` 5 all
      stay idle: the reaper tick leaves the channel and the count alone. */
  method ScenarioReaperKeepsIdle()
  {
    var created := ConnectionPool.New(5, 2);
    var p := created.value;
    var r1, l1 := p.GetConnection([Some(Conn(1, true))]);
    var r2, l2 := p.GetConnection([Some(Conn(2, true))]);
    var r3, l3 := p.GetConnection([Some(Conn(3, true))]);
    var r4, l4 := p.GetConnection([Some(Conn(4, true))]);
    var r5, l5 := p.GetConnection([Some(Conn(5, true))]);
    assert p.live == 5;
    l1.Release();
    l2.Release();
    l3.Release();
    l4.Release();
    l5.Release();
    assert |p.queue| == 5;
    var outcome := p.ReaperTick();
    assert outcome == Skipped && p.live == 5 && |p.queue| == 5;
  }
}
