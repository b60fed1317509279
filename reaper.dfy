/** One tick of the background job that `GenericConnectionPool::new`
    schedules: a function of the state it locks, a closed form of its result
    and the properties that follow. As written, the job compares the count
    with `max` (not `min`) and counts a dead connection UP, so from any
    state that keeps `live <= max` it does nothing. */
module Reaper {
  import opened PoolTypes

  /** How one tick ends. */
  datatype ReapOutcome =
    | Skipped     // the count was at most `max`: the loop breaks at once
    | Requeued    // an alive connection was popped and sent to the back of the channel
    | Blocked     // `recv` on an empty channel: the tick waits for a release
    | Overflowed  // `*connections + 1` on a count of 255: the `u8` addition panics

  datatype Tick = Tick(outcome: ReapOutcome, after: State)

  function Reap(max: U8, s: State): Tick
    decreases |s.queue|
  {
    if s.live <= max then Tick(Skipped, s)
    else if s.queue == [] then Tick(Blocked, s)
    else if s.queue[0].alive then Tick(Requeued, State(s.queue[1..] + [s.queue[0]], s.live))
    else if s.live == 255 then Tick(Overflowed, State(s.queue[1..], s.live))
    else Reap(max, State(s.queue[1..], s.live + 1))
  }

  /** The tick without the loop: above `max`, it pops the dead head of the
      channel one connection at a time, adding one to the count for each,
      until an alive connection (re-queued at the back), an empty channel,
      or a count of 255 stops it. */
  function ReapSpec(max: U8, s: State): Tick
  {
    if s.live <= max then Tick(Skipped, s)
    else
      var d := DeadPrefix(s.queue);
      var room := 255 - s.live;
      if room < d then Tick(Overflowed, State(s.queue[room + 1..], 255))
      else if d == |s.queue| then Tick(Blocked, State([], s.live + d))
      else Tick(Requeued, State(s.queue[d + 1..] + [s.queue[d]], s.live + d))
  }

  /** The loop computes the closed form, on every input. */
  lemma {:induction false} ReapMatchesSpec(max: U8, s: State)
    ensures Reap(max, s) == ReapSpec(max, s)
    decreases |s.queue|
  {
    if max < s.live && s.queue != [] && !s.queue[0].alive && s.live < 255 {
      var t := State(s.queue[1..], s.live + 1);
      assert Reap(max, s) == Reap(max, t);
      ReapMatchesSpec(max, t);
      ReapStep(max, s, t);
    }
  }

  /** One dead connection popped below a count of 255 moves the closed
      form along by one step. */
  lemma ReapStep(max: U8, s: State, t: State)
    requires max < s.live < 255 && s.queue != [] && !s.queue[0].alive
    requires t == State(s.queue[1..], s.live + 1)
    ensures ReapSpec(max, s) == ReapSpec(max, t)
  {
  }

  /** A tick on a pool whose count is within `max` changes nothing. */
  lemma ReapIdleWithinMax(max: U8, s: State)
    requires s.live <= max
    ensures Reap(max, s) == Tick(Skipped, s)
  {
  }

  /** When the tick runs its body and the head is alive, that connection
      goes to the back of the channel and the tick stops. */
  lemma ReapRequeuesAliveHead(max: U8, s: State)
    requires max < s.live && s.queue != [] && s.queue[0].alive
    ensures Reap(max, s) == Tick(Requeued, State(s.queue[1..] + [s.queue[0]], s.live))
  {
  }

  /** The tick never lowers the count: every dead connection it drops
      raises it by one (except the one whose addition overflows). */
  lemma ReapCountsDeadUp(max: U8, s: State)
    ensures var t := Reap(max, s);
            s.live <= t.after.live &&
            (t.outcome != Overflowed ==> t.after.live - s.live == |s.queue| - |t.after.queue|) &&
            (t.outcome == Overflowed ==> t.after.live == 255 && t.after.live - s.live + 1 == |s.queue| - |t.after.queue|)
  {
    ReapMatchesSpec(max, s);
  }

  /** The tick drops dead connections only: it keeps some of the channel's
      connections, and every connection that answers `is_alive()` with true
      is kept as many times as it was there. */
  lemma ReapKeepsAlive(max: U8, s: State, c: Conn)
    requires c.alive
    ensures var t := Reap(max, s).after;
            multiset(t.queue) <= multiset(s.queue) &&
            multiset(t.queue)[c] == multiset(s.queue)[c]
  {
    ReapMatchesSpec(max, s);
    var q := s.queue;
    if max < s.live {
      var d := DeadPrefix(q);
      var room := 255 - s.live;
      if room < d {
        assert q == q[..room + 1] + q[room + 1..];
        NoAliveIn(q[..room + 1], c);
      } else if d == |q| {
        assert q == q[..d];
        NoAliveIn(q[..d], c);
      } else {
        assert q == q[..d] + [q[d]] + q[d + 1..];
        NoAliveIn(q[..d], c);
        assert multiset(q[d + 1..] + [q[d]]) == multiset([q[d]] + q[d + 1..]);
      }
    }
  }

  /** An all-dead run of connections holds no alive one. */
  lemma NoAliveIn(p: seq<Conn>, c: Conn)
    requires c.alive
    requires forall j :: 0 <= j < |p| ==> !p[j].alive
    ensures multiset(p)[c] == 0
  {
    assert c !in p;
  }
}
