# A model of the generic connection pool

This project models the bookkeeping of `GenericConnectionPool` in `src/lib.rs`, a Rust connection pool. Callers get connections, use them and hand them back. The pool has four parts:

- a channel of idle connections, oldest first;
- a `u8` count of live connections, kept behind a mutex and bounded by `max`;
- a lease (`LiveConnection`) that sends its connection back to the channel when it is dropped;
- a background job that the constructor schedules every ten seconds.

`get_connection` holds the count mutex and then the receiver for the whole call (src/lib.rs:141-143). The reaper job holds the receiver for a whole tick (src/lib.rs:114). So no two acquisitions interleave, and no two ticks do. Dropping a lease takes no lock (src/lib.rs:47-53). It is one atomic push to the back of the channel, which the model places before or after a whole acquisition. The reaper takes the receiver and then the count (src/lib.rs:114, 116); `get_connection` takes them the other way round. So those two are not simply serialized, and one interleaving of them deadlocks both. The sequential model leaves that out (see "## Left out"). The model makes each operation a method on one object, `Pool.ConnectionPool`, with these parts:

- `queue: seq<Conn>`: the buffered connections;
- `live: U8`: the count;
- a ghost set `Leases`: the leases handed out and not yet dropped.

Each loop is also written as a function of the locked state:

- `Acquisition.AcquireFrom` for `get_connection`;
- `Reaper.Reap` for the reaper tick.

The methods are proved to compute exactly these functions. Each function is then proved equal to a closed form, `AcquireSpec` or `ReapSpec`, and the pool's properties are lemmas about those.

A connection is a value `Conn(id, alive)`. `alive` is the answer its `is_alive()` gives when the pool checks it. The connector is an oracle: the sequence of answers that `connect()` gives on successive calls during one acquisition. `Pool.ConnectionPool.Balanced()` holds the invariant the pool is meant to keep: `live <= max`, and the number of idle connections plus outstanding leases equals `live`. `New` establishes it. `GetConnection`, `Lease.Release` and `ReaperTick` each preserve it.

Three client methods in `Pool` replay concrete runs:

- `ScenarioExhaustThenReuse`: with `max` 2, a third caller finds nothing it may take and would block. After one release, a fourth call gets the released connection. That call stands for the blocked third caller, woken by the release and trying again: while a caller blocks, it holds the count mutex and the receiver (src/lib.rs:141-143, 176), so no other caller can get in.
- `ScenarioDeadConnectionBlocks`: see the stale snapshot below.
- `ScenarioReaperKeepsIdle`: five idle connections with `min` 2 stay in the channel after a reaper tick.

## Where the code departs from its evident intent (the model follows the code)

- **Stale `max` check.** A call that drops dead connections brings the count down (src/lib.rs:153-154). It can bring the count below `max` and still take the blocking branch. That is because line 159 compares with `max` the count read on entry at line 144, not the current count. `Acquisition.StaleSnapshotBlocks` proves this for a call that enters at `max` and finds only dead connections. In `ScenarioDeadConnectionBlocks`, a pool with `max` 1 ends up waiting with a count of 0 and no lease outstanding that could wake it.
- **The reaper does not trim.** The repository's test notes list "Min Connection respected" and "Idle Connections getting killed" as goals (tests/tests.rs:8-9). The pool stores `_min_connections` and `_max_idle_duration` (src/lib.rs:98-99) but never reads them. The job compares the count with `max`, not `min` (src/lib.rs:117). It also adds one to the count for each dead connection it drops (src/lib.rs:125). So on any pool whose count is within `max` it does nothing (`Reaper.ReapIdleWithinMax`), and it never lowers the count (`Reaper.ReapCountsDeadUp`). No connection is trimmed towards `min`, and none is evicted for being idle.
- **Connections created by the connector are not checked.** A connection that is dead when it is created is still handed out (`Acquisition.DeadNeverHandedOut` proves this is the only way a dead connection is handed out).

## Model

| member | source | states |
|---|---|---|
| `Pool.BoundsError` | src/lib.rs:85-86 | Construction is refused exactly when `min == 0` (checked first) or `max < min`, and accepted exactly when `0 < min <= max`. |
| `Pool.ConnectionPool.New` | src/lib.rs:79-102 | A rejected bound gives the failing check's error. Otherwise a fresh pool with these bounds, an empty channel, a count of 0, no leases, and the pool invariant holding. |
| `Pool.ConnectionPool.constructor` | src/lib.rs:88-102 | A new pool object has the given bounds, an empty channel and a count of 0. |
| `Pool.ConnectionPool.GetConnection` | src/lib.rs:139-194 | The outcome and the new channel and count are exactly the acquisition loop's (`AcquireFrom`, with the entry count as snapshot). A lease is returned exactly when a connection is acquired; it is fresh, holds that connection and is added to the outstanding leases. The invariant `live <= max` and idle + leased == live is preserved. |
| `Pool.Lease.constructor` | src/lib.rs:190-193 | A new lease belongs to the pool and holds the acquired connection. |
| `Pool.Lease.Release` | src/lib.rs:47-53 | Dropping a lease appends its connection to the back of the channel exactly once. There is no liveness check and the count is unchanged. The lease leaves the outstanding set and holds nothing afterwards, so a second release appends nothing. The pool invariant is preserved. |
| `Pool.ConnectionPool.ReaperTick` | src/lib.rs:112-128 | The outcome and the new channel and count are exactly those of one reaper tick (`Reap`). Leases are untouched. On a pool that keeps its invariant, nothing changes. |
| `Acquisition.AcquireMatchesSpec` | src/lib.rs:145-189 | For every input, the loop's result equals the closed form. The first alive connection in the channel is handed out, and the dead ones before it are dropped with one saturating decrement each. If none is alive, the drained channel is followed by: blocking when the entry snapshot is not below `max`; otherwise the connector's first `Some`, with the count one higher; or endless retrying if the connector never answers `Some`. |
| `Acquisition.ConnectPhase` | src/lib.rs:158-168 | With an empty channel and the snapshot below `max`, the result is the first `Some` the connector gives, with the count increased by exactly one. If it never gives one, the state is unchanged and the loop keeps retrying. |
| `Acquisition.ReuseAliveHead` | src/lib.rs:146-151 | An alive connection at the head of the channel is the one handed out. It leaves the front of the channel and the count is unchanged. |
| `Acquisition.DiscardDeadHead` | src/lib.rs:152-156 | A dead head is dropped, the count goes down by one (not below 0), and the loop continues on the rest of the channel. |
| `Acquisition.NoneRetries` | src/lib.rs:161-167 | A `None` from the connector leaves the channel and the count unchanged before the loop retries. |
| `Acquisition.DeadNeverHandedOut` | src/lib.rs:146-166 | A handed-out connection is either alive and taken from the channel, or one of the connector's answers. A handed-out connection that is dead is exactly the connector's first `Some`, given only after every idle connection was found dead and with the entry snapshot below `max`; the channel is then empty. So no connection that failed its liveness check in the channel is handed out. |
| `Acquisition.ConnectorOnlyWhenDrainedBelowMax` | src/lib.rs:144-169 | When an alive connection is in the channel, or the entry snapshot is not below `max`, the result does not depend on the connector: no connection is created. |
| `Acquisition.CreateAfterDrain` | src/lib.rs:158-166 | With only dead connections idle and the snapshot below `max`, the connector's first `Some` is handed out. The channel ends empty and the count ends exactly one above what dropping the dead connections left. |
| `Acquisition.AcquireKeepsBound` | src/lib.rs:144-166 | From a count within `max`, the count after an acquisition is still within `max`. |
| `Acquisition.AcquireKeepsAccount` | src/lib.rs:146-166 | Suppose the count equals idle connections plus leased ones. Afterwards it still does, with an acquired connection counted as leased. |
| `Acquisition.StaleSnapshotBlocks` | src/lib.rs:144-176 | A call entering at `max` with only dead idle connections drains them all and then blocks, although the count has fallen below `max`. |
| `Reaper.ReapMatchesSpec` | src/lib.rs:114-127 | For every input, a tick's result equals the closed form. Within `max`, nothing happens. Above `max`, dead head connections are dropped, each adding one to the count, until one of three things happens: an alive connection is re-queued at the back; the channel is empty, so the tick blocks; or the `u8` addition overflows at 255. |
| `Reaper.ReapIdleWithinMax` | src/lib.rs:116-119 | A tick with `live <= max` changes nothing. |
| `Reaper.ReapRequeuesAliveHead` | src/lib.rs:120-123 | When the tick runs its body and the head is alive, that connection moves to the back of the channel and the tick stops with the count unchanged. |
| `Reaper.ReapCountsDeadUp` | src/lib.rs:124-126 | A tick never lowers the count. The count rises by exactly the number of connections it dropped, or by one less when the last addition overflowed. |
| `Reaper.ReapKeepsAlive` | src/lib.rs:120-126 | The channel after a tick is a sub-multiset of the one before, and every alive connection occurs in it exactly as many times as before: only dead connections are dropped. |

## Left out

- Threads, the `Arc`/`Mutex` plumbing and the fixed-rate scheduling of the reaper: each operation is one sequential step. The order in which the reaper and `get_connection` take the two locks is not modelled. The reaper takes the receiver and then the count (src/lib.rs:114, 116). `get_connection` takes the count and then the receiver (src/lib.rs:141, 143). The sequential model therefore leaves out the deadlock in which each holds one lock and waits for the other.
- The wake-up of a blocking `recv` by another thread's release: the blocking pop on an empty channel ends the call with `WouldBlock` (in `get_connection`) or `Blocked` (in the reaper). While a caller is blocked, it holds the count mutex and the receiver, so nothing but a release can happen. A fresh call after the release stands in for the woken caller. The stand-in differs when the woken caller pops a dead connection (src/lib.rs:180-184). The woken caller then blocks again on its old snapshot, while a fresh call takes a new snapshot and may create a connection.
- Retrying forever on `None`: the connector's answers are a finite sequence. When it runs out, the call ends with `Retrying`, the state the endless loop would keep.
- Arithmetic overflow in the reaper: the model follows the panic of a checked (debug) build and ends the tick with `Overflowed`. It does not model the wrap to 0 of an unchecked build, or the poisoned mutex a panic leaves.
- Mutex poisoning and the `unwrap` of `lock()`; a disconnected channel, which cannot happen while the pool holds a sender.
- The zero-filled placeholder that `drop` swaps into the lease: the lease's connection is an `Option` that the release takes out.
- `println!`, the ignored `send` results and the `Deref` access to the leased connection: they carry no logic.
- `Duration` and the idle timeout: the pool stores it but never reads it.
- A liveness answer that changes over time: each connection answers `is_alive()` the same way whenever it is asked.
- tests/tests.rs spawns threads and sleeps, and makes no assertion. Its always-alive connector appears in the scenarios as `Some(Conn(i, true))` answers.
