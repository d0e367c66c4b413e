# Redisson connection-pool and counter core, modelled in Dafny

This project models three pieces of the Redisson client library (version 2
era, Java) and proves properties of the models.

- **The idle-connection watcher** (`IdleConnectionWatcher`): a registry of
  pool entries, each with a minimum and maximum size, a free-connections
  counter and a collection of idle connections, and the periodic sweep that
  closes connections idle for longer than the idle timeout. An entry whose
  floor check `maximumAmount - freeConnectionsCounter + size >= minimumAmount`
  fails is skipped; otherwise each idle connection is removed and closed when
  it is expired, the floor check passes at that moment, and `remove` finds it.
  The model proves that the sweep closes exactly the first `Budget(e)` expired
  connections of an entry in iteration order, where `Budget(e)` is how many
  removals the floor check admits, and keeps everything else in order.
- **The distributed atomic counter** (`RedissonAtomicLong`): every operation is
  one atomic transition of the remote store, modelled as `map<string, int>`
  where a missing key differs from a key holding 0. Plain Redis commands
  (INCRBY, INCR, DECR, SET) follow Redis's semantics; compare-and-set,
  get-and-add and get-and-set follow the text of their Lua scripts.
- **The base client configuration** (`BaseConfig`): a record of thirteen
  settings with documented defaults, a copy constructor and one setter per
  setting, including the deprecated `setRefreshConnectionAfterFails`.

Files: `options.dfy` (an `Option` type for Java's `null` and Redis's nil),
`base_config.dfy`, `redis_store.dfy` (the Redis commands), `atomic_long.dfy`,
`idle_connection_watcher.dfy`.

Modelling choices:

- Java `int` settings are the newtype `BaseConfig.int32`. Java `long` counter
  values and times are unbounded `int`.
- A configuration is an immutable value. A setter returns the updated record,
  which is what the Java fluent setter's `return (T) this` lets a chained call
  see. The getters are the record's fields; `BaseConfig.Get` reads any setting
  through one view, which is how "every other field is unchanged" is stated.
- The watcher's sweep runs at a time `now` passed in as a parameter, in place
  of `System.currentTimeMillis()`. The free-connections counter stays fixed
  during a sweep. A connection's collection is a sequence in iteration order,
  and `remove(c)` drops the first occurrence of `c`. Instead of calling
  `closeAsync`, the sweep returns a log of the connections it closed.
- The sweep's inner loop, `SweepConnections`, walks a list of connections to
  visit separately from the collection it removes from. So the case where a
  visited connection is already gone (`remove` returns false, nothing is
  closed) is part of the model. `SweepEntry` visits the entry's own collection.

Behaviour of the code worth knowing, each proved below:

- A pool with minimum 1, maximum 5, four free connections and four idle
  connections loses all four in one sweep (`FourIdleOverMinimumOne`).
- The floor check is `>=` and is re-evaluated before each removal, so a
  sweep can leave the floor quantity at `minimumAmount - 1`
  (`FloorCheckAllowsOneBelowMinimum`, `SweepStopsAtFloor`). This goes
  beyond the doc comment at BaseConfig.java:22-27, which describes closing
  only while the pool is bigger than its minimum.
- Setters store any `int`, negatives included (`SettersDoNotClamp`), and the
  deprecated "refresh connection after fails" setting is kept and copied.

## Model

| member | source | states |
|---|---|---|
| `BaseConfig.NewConfigDefaults` | src/main/java/org/redisson/BaseConfig.java:28-96 | a fresh configuration reads idle timeout 10000, ping/connect/operation timeout 1000, retry attempts 3, retry interval 1000, reconnection timeout 3000, failed attempts 3, closeConnectionAfterFailAttempts -1, database 0, subscriptions per connection 5, password and client name null |
| `BaseConfig.CopyOf` | src/main/java/org/redisson/BaseConfig.java:101-115 | the copy constructor, built as the Java constructor's chain of thirteen setters on a fresh configuration, agrees with its argument on every setting and equals it |
| `BaseConfig.SetSubscriptionsPerConnection` | src/main/java/org/redisson/BaseConfig.java:123-129 | the getter then returns the value just set, and every other setting is unchanged |
| `BaseConfig.SetPassword` | src/main/java/org/redisson/BaseConfig.java:137-143 | the getter then returns the password just set (null included), and every other setting is unchanged |
| `BaseConfig.SetRetryAttempts` | src/main/java/org/redisson/BaseConfig.java:154-160 | the getter then returns the value just set, and every other setting is unchanged |
| `BaseConfig.SetRetryInterval` | src/main/java/org/redisson/BaseConfig.java:169-175 | the getter then returns the value just set, and every other setting is unchanged |
| `BaseConfig.SetDatabase` | src/main/java/org/redisson/BaseConfig.java:183-189 | the getter then returns the value just set, and every other setting is unchanged |
| `BaseConfig.SetTimeout` | src/main/java/org/redisson/BaseConfig.java:198-204 | the getter then returns the value just set, and every other setting is unchanged |
| `BaseConfig.SetClientName` | src/main/java/org/redisson/BaseConfig.java:212-218 | the getter then returns the name just set (null included), and every other setting is unchanged |
| `BaseConfig.SetPingTimeout` | src/main/java/org/redisson/BaseConfig.java:226-232 | the getter then returns the value just set, and every other setting is unchanged |
| `BaseConfig.SetRefreshConnectionAfterFails` | src/main/java/org/redisson/BaseConfig.java:240-244 | the deprecated setter writes the closeConnectionAfterFailAttempts setting and changes no other |
| `BaseConfig.GetRefreshConnectionAfterFails` | src/main/java/org/redisson/BaseConfig.java:245-248 | the deprecated getter returns the closeConnectionAfterFailAttempts setting |
| `BaseConfig.RefreshConnectionAfterFailsRoundTrip` | src/main/java/org/redisson/BaseConfig.java:240-248 | the deprecated getter reads back what the deprecated setter wrote, on any configuration |
| `BaseConfig.SetConnectTimeout` | src/main/java/org/redisson/BaseConfig.java:256-262 | the getter then returns the value just set, and every other setting is unchanged |
| `BaseConfig.SetIdleConnectionTimeout` | src/main/java/org/redisson/BaseConfig.java:272-278 | the getter then returns the value just set, and every other setting is unchanged |
| `BaseConfig.SetReconnectionTimeout` | src/main/java/org/redisson/BaseConfig.java:292-298 | the getter then returns the value just set, and every other setting is unchanged |
| `BaseConfig.SetFailedAttempts` | src/main/java/org/redisson/BaseConfig.java:307-313 | the getter then returns the value just set, and every other setting is unchanged |
| `BaseConfig.SettersDoNotClamp` | src/main/java/org/redisson/BaseConfig.java:154-157 | negative retry attempts, idle timeouts and operation timeouts are stored and read back as given, with no validation |
| `BaseConfig.ChainedSettersKeepEarlierValue` | src/main/java/org/redisson/BaseConfig.java:154-172 | in a chained call `setRetryAttempts(a).setRetryInterval(b)` both values are kept |
| `RedisStore.Set` | src/main/java/org/redisson/RedissonAtomicLong.java:149-151 | SET leaves the key holding the new value and every other key as it was |
| `RedisStore.IncrBy` | src/main/java/org/redisson/RedissonAtomicLong.java:44-46 | INCRBY reads a missing key as 0, stores old plus increment, replies with the new value and touches no other key |
| `AtomicLong.AddAndGet` | src/main/java/org/redisson/RedissonAtomicLong.java:39-46 | stores the old value (0 when missing) plus delta, returns that new value, and no other key changes |
| `AtomicLong.CompareAndSet` | src/main/java/org/redisson/RedissonAtomicLong.java:49-62 | returns true exactly when the key is present and holds the expected value, then stores the update; on false the store is unchanged, so a missing key fails even when expecting 0 |
| `AtomicLong.DecrementAndGet` | src/main/java/org/redisson/RedissonAtomicLong.java:65-72 | DECR: stores and returns the old value (0 when missing) minus one; no other key changes |
| `AtomicLong.GetValue` | src/main/java/org/redisson/RedissonAtomicLong.java:75-82 | `get()` returns the value (0 when missing), keeps the number, but leaves the key present |
| `AtomicLong.GetAndAdd` | src/main/java/org/redisson/RedissonAtomicLong.java:85-97 | returns the prior value (0 when missing) and stores prior plus delta; no other key changes |
| `AtomicLong.GetAndSet` | src/main/java/org/redisson/RedissonAtomicLong.java:101-111 | returns the prior value (0 when missing) and stores the new value; no other key changes |
| `AtomicLong.IncrementAndGet` | src/main/java/org/redisson/RedissonAtomicLong.java:114-121 | INCR: stores and returns the old value (0 when missing) plus one; no other key changes |
| `AtomicLong.GetAndIncrement` | src/main/java/org/redisson/RedissonAtomicLong.java:124-131 | returns the prior value (0 when missing) and stores it plus one |
| `AtomicLong.GetAndDecrement` | src/main/java/org/redisson/RedissonAtomicLong.java:134-141 | returns the prior value (0 when missing) and stores it minus one |
| `AtomicLong.SetValue` | src/main/java/org/redisson/RedissonAtomicLong.java:144-151 | stores the value unconditionally and touches no other key |
| `AtomicLong.UnitOperationsAreAdds` | src/main/java/org/redisson/RedissonAtomicLong.java:114-141 | incrementAndGet/decrementAndGet are addAndGet(1)/addAndGet(-1), and getAndIncrement/getAndDecrement are getAndAdd(1)/getAndAdd(-1) |
| `AtomicLong.GetMakesCompareAndSetZeroSucceed` | src/main/java/org/redisson/RedissonAtomicLong.java:54-82 | on a missing key compareAndSet(0, x) fails and leaves the key missing, but after `get()` has created it the same call succeeds |
| `AtomicLong.AddsAccumulate` | src/main/java/org/redisson/RedissonAtomicLong.java:39-97 | after any sequence of getAndAdd/addAndGet calls the counter holds the initial value (0 when missing) plus the sum of the deltas, each call replies as if run alone after the earlier ones, and no other key changes |
| `AtomicLong.UnsetCounterScenario` | src/main/java/org/redisson/RedissonAtomicLong.java:90-96 | on an unset counter getAndAdd(5) returns 0 and leaves 5, and ten getAndAdd(1) calls after it leave 15 |
| `AtomicLong.RacingCompareAndSetsOneWinner` | src/main/java/org/redisson/RedissonAtomicLong.java:54-61 | among compareAndSet calls with one expected value and updates different from it, served one at a time, only the first can succeed, and it does exactly when the key holds the expected value |
| `IdleConnectionWatcher.ValidateAmount` | src/main/java/org/redisson/connection/IdleConnectionWatcher.java:85-87 | the floor check holds exactly when maximumAmount - freeConnectionsCounter + the number of idle connections is at least minimumAmount |
| `IdleConnectionWatcher.FloorCheckAfterRemoval` | src/main/java/org/redisson/connection/IdleConnectionWatcher.java:68-69 | with one connection fewer, the re-evaluated floor check passes exactly when the quantity was above the minimum before the removal |
| `IdleConnectionWatcher.Remove` | src/main/java/org/redisson/connection/IdleConnectionWatcher.java:69 | remove reports true exactly when the connection is in the collection and then drops one occurrence; otherwise the collection is unchanged |
| `IdleConnectionWatcher.SweepConnections` | src/main/java/org/redisson/connection/IdleConnectionWatcher.java:66-78 | the inner loop keeps bounds and counter, closes exactly what it removed, closes only visited connections idle strictly longer than the timeout, lowers the floor quantity by one per close but never below the smaller of its start and minimumAmount - 1, and changes nothing when the floor check fails |
| `IdleConnectionWatcher.SweepEntry` | src/main/java/org/redisson/connection/IdleConnectionWatcher.java:61-78 | one entry's turn: an entry failing the floor check loses nothing; otherwise only its own expired connections are closed, each one removed from it, and the floor quantity ends at minimumAmount - 1 or above |
| `IdleConnectionWatcher.SweepConnectionsMatchesBudget` | src/main/java/org/redisson/connection/IdleConnectionWatcher.java:66-78 | partway through the loop, the remaining visits close exactly the first Budget expired connections still to visit and keep the rest in order |
| `IdleConnectionWatcher.RemovalStep` | src/main/java/org/redisson/connection/IdleConnectionWatcher.java:67-76 | a visited expired connection, met while the floor check passes, is the one removed, closed and charged to the budget |
| `IdleConnectionWatcher.SkipStep` | src/main/java/org/redisson/connection/IdleConnectionWatcher.java:67-69 | a visited connection that is not expired, or met after the floor check fails, stays in place |
| `IdleConnectionWatcher.SweepEntryMatchesBudget` | src/main/java/org/redisson/connection/IdleConnectionWatcher.java:61-87 | a sweep of an entry closes exactly the first Budget(e) expired connections in iteration order and keeps all the others in order, where Budget(e) is how many removals the floor check admits |
| `IdleConnectionWatcher.SweepKeepsOrder` | src/main/java/org/redisson/connection/IdleConnectionWatcher.java:66-78 | the connections left after a sweep are the original ones with some removed, in their original relative order |
| `IdleConnectionWatcher.SweepKeepsUnexpired` | src/main/java/org/redisson/connection/IdleConnectionWatcher.java:67-68 | a connection idle for at most the timeout, exactly the timeout included, survives the sweep |
| `IdleConnectionWatcher.SweepStopsAtFloor` | src/main/java/org/redisson/connection/IdleConnectionWatcher.java:68-69 | if an entry that passed the floor check still holds an expired connection after the sweep, the floor quantity is exactly minimumAmount - 1 |
| `IdleConnectionWatcher.AbsentConnectionNotClosed` | src/main/java/org/redisson/connection/IdleConnectionWatcher.java:69-70 | a visited connection that is not in the collection is never closed |
| `IdleConnectionWatcher.Add` | src/main/java/org/redisson/connection/IdleConnectionWatcher.java:89-91 | appends exactly one entry with the given bounds, collection and counter, and leaves the earlier entries as they were |
| `IdleConnectionWatcher.SweepEntries` | src/main/java/org/redisson/connection/IdleConnectionWatcher.java:61-79 | every registered entry is swept on its own, in order, every closed connection was removed from some entry, and only expired connections are closed |
| `IdleConnectionWatcher.Run` | src/main/java/org/redisson/connection/IdleConnectionWatcher.java:60-80 | the scheduled run sweeps every registered entry as SweepEntry does, and its close log holds exactly the connections the entries lost |
| `IdleConnectionWatcher.AddedEntryIsSwept` | src/main/java/org/redisson/connection/IdleConnectionWatcher.java:89-91 | after add, the next run sweeps the new entry and sweeps the earlier entries as it would have without it |
| `IdleConnectionWatcher.NewWatcherClosesNothing` | src/main/java/org/redisson/connection/IdleConnectionWatcher.java:54 | a freshly constructed watcher has an empty registry, so its first run sweeps nothing and closes nothing |
| `IdleConnectionWatcher.FirstAddIsOnlyEntrySwept` | src/main/java/org/redisson/connection/IdleConnectionWatcher.java:54-91 | after one add on a new watcher, the next run sweeps exactly that entry |
| `IdleConnectionWatcher.RunRespectsFloor` | src/main/java/org/redisson/connection/IdleConnectionWatcher.java:61-78 | in the run's result, each entry that passed the floor check is at minimumAmount - 1 or above, and each entry that failed it is exactly as it was registered |
| `IdleConnectionWatcher.FourIdleOverMinimumOne` | src/main/java/org/redisson/connection/IdleConnectionWatcher.java:61-78 | minimum 1, maximum 5, four free, four idle connections unused for 150 ms with timeout 100 ms: all four are closed |
| `IdleConnectionWatcher.FloorCheckAllowsOneBelowMinimum` | src/main/java/org/redisson/connection/IdleConnectionWatcher.java:85-87 | with minimum 3 in the same pool, three connections are closed and the floor quantity ends at 2, one below the minimum |
| `IdleConnectionWatcher.IdleExactlyTimeoutIsKept` | src/main/java/org/redisson/connection/IdleConnectionWatcher.java:67-68 | a connection idle for exactly the timeout is not closed |

## Left out

- Scheduling and concurrency in the watcher: `scheduleWithFixedDelay`, the weakly consistent iteration of the concurrent queue, and concurrent updates of the free-connections counter during a sweep. One sequential sweep is modelled, with the counter fixed.
- `closeAsync` and its log listener: asynchronous I/O. The sweep returns the list of closed connections instead.
- The watcher's constructor reads the idle timeout from the server configuration and schedules itself; only its empty registry is modelled (`NewWatcher`). The timeout is a parameter of `Run`, and `now` replaces the system clock. The source reads the clock again for every visited connection; the model uses one `now` for the whole run, so it covers a clock that does not move during a sweep.
- IdleConnectionWatcher.ValidateAmount: the floor quantity is computed with unbounded integers, without Java `int` overflow; pool sizes and counters never come near 2^31.
- Command transport: `CommandExecutor.writeAsync`/`evalWriteAsync`, futures and the blocking `get(future)`. Each operation is a direct atomic transition of the store, and each `...Async` variant is the same transition as its blocking form.
- Numeric edge cases of the counter: Redis INCRBY's 64-bit overflow error and the Lua scripts' double-precision arithmetic. Counter values are unbounded integers.
- AtomicLong.CompareAndSet: the script compares the stored string with the decimal string of the expected value. The model compares integers. The two agree for every value these operations store, but not for values written in another form by other clients.
- `toString`: it formats the value returned by `get()`.
- Expiration: it is inherited from `RedissonExpirable`, which is not part of this model.
- The self-referential type parameter `T extends BaseConfig<T>` and subclassing of the configuration.
- `FstCodec`: a thin wrapper over an external serialisation library, with no logic of its own.
- `RExpirableAsync` and `RBlockingQueue`: interfaces with no implementation.
