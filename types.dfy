/** Vocabulary shared by the acquisition protocol, the reaper and the pool:
    the `u8` that holds the live count and the bounds, the connection as the
    pool sees it, and the part of the pool's state the two loops work on. */
module PoolTypes {

  /** The Rust `u8` used for the live count and for `max`/`min`. */
  type U8 = x: int | 0 <= x < 256

  datatype Option<+T> = None | Some(value: T)

  /** A connection as the pool sees it: an identity, and the answer its
      `is_alive()` gives when the pool asks. */
  datatype Conn = Conn(id: nat, alive: bool)

  /** The state both loops work on: the idle connections buffered in the
      channel, oldest first, and the live-connection counter. */
  datatype State = State(queue: seq<Conn>, live: U8)

  /** The counter decrement of the acquisition loop: one less, but never
      below zero. */
  function DecSat(n: U8): U8
  {
    if n > 0 then n - 1 else n
  }

  /** `n` less `k`, but never below zero. */
  function SubSat(n: U8, k: nat): U8
  {
    if k <= n then n - k else 0
  }

  /** `k` saturating decrements in a row, one per dead connection, add up
      to `SubSat(n, k)`, whether the newest decrement is counted last or
      first. */
  lemma SubSatStep(n: U8, k: nat)
    ensures SubSat(n, k + 1) == DecSat(SubSat(n, k))
    ensures SubSat(n, k + 1) == SubSat(DecSat(n), k)
  {
  }

  /** Number of dead connections at the head of `q`: the ones a pass that
      stops at the first alive connection discards. */
  function DeadPrefix(q: seq<Conn>): (k: nat)
    ensures k <= |q|
    ensures forall j :: 0 <= j < k ==> !q[j].alive
    ensures k < |q| ==> q[k].alive
  {
    if q == [] || q[0].alive then 0 else 1 + DeadPrefix(q[1..])
  }

  /** Number of `None` answers before the first `Some` in a run of
      `connect()` outcomes. */
  function FirstSome(cs: seq<Option<Conn>>): (k: nat)
    ensures k <= |cs|
    ensures forall j :: 0 <= j < k ==> cs[j].None?
    ensures k < |cs| ==> cs[k].Some?
  {
    if cs == [] || cs[0].Some? then 0 else 1 + FirstSome(cs[1..])
  }
}
