/** The acquisition loop of `GenericConnectionPool::get_connection`, as a
    function of the locked state, together with a closed form of its result
    and the properties the pool relies on. Every step runs with the count
    mutex held, so the loop is sequential. */
module Acquisition {
  import opened PoolTypes

  /** How one call of `get_connection` ends. */
  datatype AcquireOutcome =
    | Acquired(conn: Conn)  // a lease on `conn` is handed out
    | WouldBlock            // the blocking `recv` on an empty channel: only a release by another thread could wake it
    | Retrying              // every `connect()` answer given was `None`: the loop goes on calling `connect()`

  datatype Attempt = Attempt(outcome: AcquireOutcome, after: State)

  /** The loop from state `s`: `snapshot` is the count read on entry, which
      is what the `max` check uses; `connects` are the answers of the
      successive `connect()` calls this acquisition makes. */
  function AcquireFrom(max: U8, snapshot: U8, s: State, connects: seq<Option<Conn>>): Attempt
    requires s.live <= snapshot
    decreases |s.queue| + |connects|
  {
    if s.queue != [] then
      var c := s.queue[0];
      if c.alive then Attempt(Acquired(c), State(s.queue[1..], s.live))
      else AcquireFrom(max, snapshot, State(s.queue[1..], DecSat(s.live)), connects)
    else if snapshot < max then
      if connects == [] then Attempt(Retrying, s)
      else match connects[0]
        case Some(c) => Attempt(Acquired(c), State(s.queue, s.live + 1))
        case None => AcquireFrom(max, snapshot, s, connects[1..])
    else
      Attempt(WouldBlock, s)
  }

  /** The same result, stated without the loop: skip the dead head of the
      queue, hand out the first alive connection; if none is alive, the
      drained queue is followed by a creation only when the entry snapshot
      is below `max`. */
  function AcquireSpec(max: U8, snapshot: U8, s: State, connects: seq<Option<Conn>>): Attempt
    requires s.live <= snapshot
  {
    var k := DeadPrefix(s.queue);
    var drained := SubSat(s.live, k);
    if k < |s.queue| then
      Attempt(Acquired(s.queue[k]), State(s.queue[k + 1..], drained))
    else if max <= snapshot then
      Attempt(WouldBlock, State([], drained))
    else
      var j := FirstSome(connects);
      if j < |connects| then Attempt(Acquired(connects[j].value), State([], drained + 1))
      else Attempt(Retrying, State([], drained))
  }

  /** With an empty channel and the snapshot below `max`, the loop asks the
      connector until it answers `Some`. */
  lemma {:induction false} ConnectPhase(max: U8, snapshot: U8, live: U8, connects: seq<Option<Conn>>)
    requires live <= snapshot < max
    ensures AcquireFrom(max, snapshot, State([], live), connects)
         == (var j := FirstSome(connects);
             if j < |connects| then Attempt(Acquired(connects[j].value), State([], live + 1))
             else Attempt(Retrying, State([], live)))
    decreases |connects|
  {
    if connects != [] && connects[0].None? {
      ConnectPhase(max, snapshot, live, connects[1..]);
    }
  }

  /** The loop computes the closed form, on every input. */
  lemma {:induction false} AcquireMatchesSpec(max: U8, snapshot: U8, s: State, connects: seq<Option<Conn>>)
    requires s.live <= snapshot
    ensures AcquireFrom(max, snapshot, s, connects) == AcquireSpec(max, snapshot, s, connects)
    decreases |s.queue|
  {
    if s.queue == [] {
      if snapshot < max {
        ConnectPhase(max, snapshot, s.live, connects);
      }
    } else if !s.queue[0].alive {
      var t := State(s.queue[1..], DecSat(s.live));
      AcquireMatchesSpec(max, snapshot, t, connects);
      SubSatStep(s.live, DeadPrefix(t.queue));
      assert DeadPrefix(s.queue) == 1 + DeadPrefix(t.queue);
      if DeadPrefix(s.queue) < |s.queue| {
        assert s.queue[DeadPrefix(s.queue) + 1..] == t.queue[DeadPrefix(t.queue) + 1..];
      }
    }
  }

  /** An alive head is handed out as it is: it leaves the front of the
      channel and the live count does not change. */
  lemma ReuseAliveHead(max: U8, s: State, connects: seq<Option<Conn>>)
    requires s.queue != [] && s.queue[0].alive
    ensures AcquireFrom(max, s.live, s, connects) == Attempt(Acquired(s.queue[0]), State(s.queue[1..], s.live))
  {
  }

  /** A dead head is dropped, the count goes down by one (never below
      zero), and the loop starts over on the rest of the channel. */
  lemma DiscardDeadHead(max: U8, snapshot: U8, s: State, connects: seq<Option<Conn>>)
    requires s.live <= snapshot
    requires s.queue != [] && !s.queue[0].alive
    ensures AcquireFrom(max, snapshot, s, connects)
         == AcquireFrom(max, snapshot, State(s.queue[1..], DecSat(s.live)), connects)
  {
  }

  /** A `None` from the connector changes neither the channel nor the
      count: the loop simply tries again. */
  lemma NoneRetries(max: U8, snapshot: U8, live: U8, connects: seq<Option<Conn>>)
    requires live <= snapshot < max
    ensures AcquireFrom(max, snapshot, State([], live), [None] + connects)
         == AcquireFrom(max, snapshot, State([], live), connects)
  {
  }

  /** A connection that answers `is_alive() == false` when it is taken
      from the channel is never handed out: a dead connection is handed out
      only as the connector's first `Some`, after every idle connection was
      found dead and with the entry snapshot below `max`. The connector's
      answers are not checked. */
  lemma DeadNeverHandedOut(max: U8, snapshot: U8, s: State, connects: seq<Option<Conn>>)
    requires s.live <= snapshot
    ensures var a := AcquireFrom(max, snapshot, s, connects);
            a.outcome.Acquired? ==>
              (a.outcome.conn.alive && a.outcome.conn in s.queue) || Some(a.outcome.conn) in connects
    ensures var a := AcquireFrom(max, snapshot, s, connects);
            a.outcome.Acquired? && !a.outcome.conn.alive ==>
              && DeadPrefix(s.queue) == |s.queue| && snapshot < max
              && FirstSome(connects) < |connects|
              && a.outcome.conn == connects[FirstSome(connects)].value
              && a.after.queue == []
  {
    AcquireMatchesSpec(max, snapshot, s, connects);
    var j := FirstSome(connects);
    if DeadPrefix(s.queue) == |s.queue| && snapshot < max && j < |connects| {
      assert connects[j] == Some(connects[j].value);
    }
  }

  /** The connector is consulted only when no alive connection is left in
      the channel and the entry snapshot is below `max`: otherwise the
      result does not depend on what it would answer. */
  lemma ConnectorOnlyWhenDrainedBelowMax(max: U8, snapshot: U8, s: State, connects: seq<Option<Conn>>, others: seq<Option<Conn>>)
    requires s.live <= snapshot
    requires DeadPrefix(s.queue) < |s.queue| || max <= snapshot
    ensures AcquireFrom(max, snapshot, s, connects) == AcquireFrom(max, snapshot, s, others)
  {
    AcquireMatchesSpec(max, snapshot, s, connects);
    AcquireMatchesSpec(max, snapshot, s, others);
  }

  /** When the connector is used and answers `Some`, that new connection is
      handed out and the count ends exactly one above what draining the
      dead connections left. */
  lemma CreateAfterDrain(max: U8, snapshot: U8, s: State, connects: seq<Option<Conn>>)
    requires s.live <= snapshot < max
    requires DeadPrefix(s.queue) == |s.queue|
    requires FirstSome(connects) < |connects|
    ensures AcquireFrom(max, snapshot, s, connects)
         == Attempt(Acquired(connects[FirstSome(connects)].value), State([], SubSat(s.live, |s.queue|) + 1))
  {
    AcquireMatchesSpec(max, snapshot, s, connects);
  }

  /** The acquisition keeps `live <= max`: the count only goes down before
      a creation, and a creation needs the entry snapshot below `max`. */
  lemma AcquireKeepsBound(max: U8, s: State, connects: seq<Option<Conn>>)
    requires s.live <= max
    ensures AcquireFrom(max, s.live, s, connects).after.live <= max
  {
    AcquireMatchesSpec(max, s.live, s, connects);
  }

  /** Bookkeeping: when the count equals the idle connections plus the
      `leased` ones, it still does afterwards, with the connection handed
      out (if any) counted as leased. */
  lemma AcquireKeepsAccount(max: U8, s: State, connects: seq<Option<Conn>>, leased: nat)
    requires |s.queue| + leased == s.live
    ensures var a := AcquireFrom(max, s.live, s, connects);
            |a.after.queue| + leased + (if a.outcome.Acquired? then 1 else 0) == a.after.live
  {
    AcquireMatchesSpec(max, s.live, s, connects);
  }

  /** The stale snapshot: a call that enters with the count at `max` and
      finds only dead connections drains them all, yet still takes the
      blocking branch although the count is now below `max`. */
  lemma StaleSnapshotBlocks(max: U8, s: State, connects: seq<Option<Conn>>)
    requires s.live == max && |s.queue| <= s.live
    requires s.queue != [] && DeadPrefix(s.queue) == |s.queue|
    ensures AcquireFrom(max, s.live, s, connects) == Attempt(WouldBlock, State([], s.live - |s.queue|))
    ensures s.live - |s.queue| < max
  {
    AcquireMatchesSpec(max, s.live, s, connects);
  }
}
