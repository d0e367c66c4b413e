/**
 The distributed counter `RedissonAtomicLong`: a 64-bit counter stored under
 one key of the remote store. Each operation is one atomic transition of the
 store: either a single Redis command (INCRBY, INCR, DECR, SET) or a single
 Lua script that reads, computes and writes in one server-side step.
 */
module AtomicLong {
  import opened Options
  import opened RedisStore

  /** How the scripts read the counter: a missing key reads as 0. */
  function GetOrZero(s: Store, k: Key): int {
    Get(s, k).GetOr(0)
  }

  // The three Lua scripts, each run by the server as one step.

  /**
   Compare-and-set script: when the key currently holds the expected value,
   it overwrites it with the update and answers true; otherwise it writes
   nothing and answers false.
   */
  function CompareAndSetScript(s: Store, k: Key, expected: int, update: int): Reply<bool> {
    // A missing key makes `get` return false, which equals no argument.
    if Get(s, k) == Some(expected) then Reply(Set(s, k, update), true) else Reply(s, false)
  }

  /**
   Get-and-add script: reads the current value, taking a missing key as 0,
   stores that value plus the increment, and answers the value it read.
   */
  function GetAndAddScript(s: Store, k: Key, delta: int): Reply<int> {
    var v := GetOrZero(s, k);
    Reply(Set(s, k, v + delta), v)
  }

  /**
   Get-and-set script: reads the current value, taking a missing key as 0,
   stores the new value in its place, and answers the value it read.
   */
  function GetAndSetScript(s: Store, k: Key, newValue: int): Reply<int> {
    var v := GetOrZero(s, k);
    Reply(Set(s, k, newValue), v)
  }

  // The counter operations on the counter stored under `name`.

  /** INCRBY: stores the old value (0 when missing) plus `delta`; returns the new value. */
  function AddAndGet(s: Store, name: Key, delta: int): (r: Reply<int>)
    ensures r.value == GetOrZero(s, name) + delta
    ensures Get(r.store, name) == Some(r.value)
    ensures OthersUnchanged(s, r.store, name)
  {
    IncrBy(s, name, delta)
  }

  /**
   Succeeds exactly when the key is present and holds `expected`, and then
   stores `update`; on failure nothing changes. A missing key never matches,
   not even `expected == 0`.
   */
  function CompareAndSet(s: Store, name: Key, expected: int, update: int): (r: Reply<bool>)
    ensures r.value <==> name in s && s[name] == expected
    ensures r.value ==> Get(r.store, name) == Some(update) && OthersUnchanged(s, r.store, name)
    ensures !r.value ==> r.store == s
  {
    CompareAndSetScript(s, name, expected, update)
  }

  /** DECR: stores and returns the old value (0 when missing) minus one. */
  function DecrementAndGet(s: Store, name: Key): (r: Reply<int>)
    ensures r.value == GetOrZero(s, name) - 1
    ensures Get(r.store, name) == Some(r.value)
    ensures OthersUnchanged(s, r.store, name)
  {
    Decr(s, name)
  }

  /**
   `get()` is `addAndGet(0)`: it returns the value (0 when missing) and keeps
   the number, but a missing key is created holding 0.
   */
  function GetValue(s: Store, name: Key): (r: Reply<int>)
    ensures r.value == GetOrZero(s, name)
    ensures Get(r.store, name) == Some(r.value)
    ensures GetOrZero(r.store, name) == GetOrZero(s, name)
    ensures OthersUnchanged(s, r.store, name)
  {
    AddAndGet(s, name, 0)
  }

  /** Returns the old value (0 when missing) and stores it plus `delta`. */
  function GetAndAdd(s: Store, name: Key, delta: int): (r: Reply<int>)
    ensures r.value == GetOrZero(s, name)
    ensures Get(r.store, name) == Some(r.value + delta)
    ensures OthersUnchanged(s, r.store, name)
  {
    GetAndAddScript(s, name, delta)
  }

  /** Returns the old value (0 when missing) and stores `newValue`. */
  function GetAndSet(s: Store, name: Key, newValue: int): (r: Reply<int>)
    ensures r.value == GetOrZero(s, name)
    ensures Get(r.store, name) == Some(newValue)
    ensures OthersUnchanged(s, r.store, name)
  {
    GetAndSetScript(s, name, newValue)
  }

  /** INCR: stores and returns the old value (0 when missing) plus one. */
  function IncrementAndGet(s: Store, name: Key): (r: Reply<int>)
    ensures r.value == GetOrZero(s, name) + 1
    ensures Get(r.store, name) == Some(r.value)
    ensures OthersUnchanged(s, r.store, name)
  {
    Incr(s, name)
  }

  /** `getAndAdd(1)`. */
  function GetAndIncrement(s: Store, name: Key): (r: Reply<int>)
    ensures r.value == GetOrZero(s, name)
    ensures Get(r.store, name) == Some(r.value + 1)
    ensures OthersUnchanged(s, r.store, name)
  {
    GetAndAdd(s, name, 1)
  }

  /** `getAndAdd(-1)`. */
  function GetAndDecrement(s: Store, name: Key): (r: Reply<int>)
    ensures r.value == GetOrZero(s, name)
    ensures Get(r.store, name) == Some(r.value - 1)
    ensures OthersUnchanged(s, r.store, name)
  {
    GetAndAdd(s, name, -1)
  }

  /** SET: stores `newValue` unconditionally; no other key changes. */
  function SetValue(s: Store, name: Key, newValue: int): (t: Store)
    ensures Get(t, name) == Some(newValue)
    ensures OthersUnchanged(s, t, name)
  {
    Set(s, name, newValue)
  }

  /** The unit operations are the general ones with increment 1 or -1. */
  lemma UnitOperationsAreAdds(s: Store, name: Key)
    ensures IncrementAndGet(s, name) == AddAndGet(s, name, 1)
    ensures DecrementAndGet(s, name) == AddAndGet(s, name, -1)
    ensures GetAndIncrement(s, name) == GetAndAdd(s, name, 1)
    ensures GetAndDecrement(s, name) == GetAndAdd(s, name, -1)
  {
  }

  /**
   On a missing key, `compareAndSet(0, x)` fails and leaves the key missing;
   after `get()` has created the key, the same call succeeds.
   */
  lemma GetMakesCompareAndSetZeroSucceed(s: Store, name: Key, update: int)
    requires name !in s
    ensures !CompareAndSet(s, name, 0, update).value
    ensures name !in CompareAndSet(s, name, 0, update).store
    ensures CompareAndSet(GetValue(s, name).store, name, 0, update).value
  {
  }

  // Sequences of calls, served one at a time by the server.

  /** One adding call on the counter. */
  datatype AddCall = GetAndAddCall(delta: int) | AddAndGetCall(delta: int)

  function Perform(s: Store, name: Key, call: AddCall): Reply<int> {
    match call
    case GetAndAddCall(d) => GetAndAdd(s, name, d)
    case AddAndGetCall(d) => AddAndGet(s, name, d)
  }

  /** The store after serving `calls` in order, with each call's reply. */
  function RunAdds(s: Store, name: Key, calls: seq<AddCall>): Reply<seq<int>>
    decreases |calls|
  {
    if |calls| == 0 then Reply(s, [])
    else
      var first := Perform(s, name, calls[0]);
      var rest := RunAdds(first.store, name, calls[1..]);
      Reply(rest.store, [first.value] + rest.value)
  }

  function SumDeltas(calls: seq<AddCall>): int
    decreases |calls|
  {
    if |calls| == 0 then 0 else calls[0].delta + SumDeltas(calls[1..])
  }

  /** The reply call `i` gets after `calls[..i]`: the prior value for getAndAdd, the new one for addAndGet. */
  function Expected(initial: int, calls: seq<AddCall>, i: nat): int
    requires i < |calls|
  {
    var before := initial + SumDeltas(calls[..i]);
    match calls[i]
    case GetAndAddCall(_) => before
    case AddAndGetCall(d) => before + d
  }

  /**
   No update is lost: after any sequence of `getAndAdd`/`addAndGet` calls the
   counter holds its initial value (0 when missing) plus the sum of all
   deltas, every call replies as if it ran alone on the value left by the
   calls before it, and no other key changes.
   */
  lemma {:induction false} AddsAccumulate(s: Store, name: Key, calls: seq<AddCall>)
    ensures GetOrZero(RunAdds(s, name, calls).store, name) == GetOrZero(s, name) + SumDeltas(calls)
    ensures |calls| > 0 ==> name in RunAdds(s, name, calls).store
    ensures OthersUnchanged(s, RunAdds(s, name, calls).store, name)
    ensures |RunAdds(s, name, calls).value| == |calls|
    ensures forall i :: 0 <= i < |calls| ==>
              RunAdds(s, name, calls).value[i] == Expected(GetOrZero(s, name), calls, i)
    decreases |calls|
  {
    if |calls| > 0 {
      var first := Perform(s, name, calls[0]);
      var after := GetOrZero(first.store, name);
      assert after == GetOrZero(s, name) + calls[0].delta;
      AddsAccumulate(first.store, name, calls[1..]);
      var r := RunAdds(s, name, calls);
      forall i | 0 <= i < |calls|
        ensures r.value[i] == Expected(GetOrZero(s, name), calls, i)
      {
        if i == 0 {
          assert calls[..0] == [];
        } else {
          assert calls[..i][1..] == calls[1..][..i - 1];
          assert SumDeltas(calls[..i]) == calls[0].delta + SumDeltas(calls[1..][..i - 1]);
          assert calls[1..][i - 1] == calls[i];
        }
      }
    }
  }

  /** `n` calls of `getAndAdd(1)`. */
  function Increments(n: nat): (calls: seq<AddCall>)
    ensures |calls| == n
    ensures SumDeltas(calls) == n
  {
    if n == 0 then [] else [GetAndAddCall(1)] + Increments(n - 1)
  }

  /**
   A counter that starts unset: `getAndAdd(5)` replies 0 and leaves 5; ten
   `getAndAdd(1)` calls after it leave 15.
   */
  lemma UnsetCounterScenario(s: Store, name: Key)
    requires name !in s
    ensures GetAndAdd(s, name, 5).value == 0
    ensures Get(GetAndAdd(s, name, 5).store, name) == Some(5)
    ensures Get(RunAdds(GetAndAdd(s, name, 5).store, name, Increments(10)).store, name) == Some(15)
  {
    AddsAccumulate(GetAndAdd(s, name, 5).store, name, Increments(10));
  }

  /** The store after serving `compareAndSet(expected, updates[i])` for each `i` in order, with the replies. */
  function RunCompareAndSets(s: Store, name: Key, expected: int, updates: seq<int>): Reply<seq<bool>>
    decreases |updates|
  {
    if |updates| == 0 then Reply(s, [])
    else
      var first := CompareAndSet(s, name, expected, updates[0]);
      var rest := RunCompareAndSets(first.store, name, expected, updates[1..]);
      Reply(rest.store, [first.value] + rest.value)
  }

  /**
   Callers racing `compareAndSet` with the same expected value and updates
   that differ from it: only the first served can succeed, and it succeeds
   exactly when the key holds the expected value; so at most one call wins.
   */
  lemma {:induction false} RacingCompareAndSetsOneWinner(s: Store, name: Key, expected: int, updates: seq<int>)
    requires forall i :: 0 <= i < |updates| ==> updates[i] != expected
    ensures |RunCompareAndSets(s, name, expected, updates).value| == |updates|
    ensures forall i :: 0 <= i < |updates| ==>
              (RunCompareAndSets(s, name, expected, updates).value[i] <==> i == 0 && Get(s, name) == Some(expected))
    decreases |updates|
  {
    if |updates| > 0 {
      var first := CompareAndSet(s, name, expected, updates[0]);
      assert Get(first.store, name) != Some(expected);
      RacingCompareAndSetsOneWinner(first.store, name, expected, updates[1..]);
    }
  }
}
