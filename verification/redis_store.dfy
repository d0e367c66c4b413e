/**
 The remote key-value store as the counter sees it: a map from key to integer,
 a missing key being distinct from a key holding 0, and the plain Redis
 commands GET, SET, INCRBY, INCR and DECR as transitions on it. The server runs
 one command (or one script) at a time, so each transition is atomic.
 */
module RedisStore {
  import opened Options

  type Key = string

  type Store = map<Key, int>

  /** A command's effect: the store afterwards and the reply sent back. */
  datatype Reply<T> = Reply(store: Store, value: T)

  /** Two stores agree on every key except `k`. */
  predicate OthersUnchanged(s: Store, t: Store, k: Key) {
    s - {k} == t - {k}
  }

  /** GET: the stored value, or nil when the key is missing. */
  function Get(s: Store, k: Key): Option<int> {
    if k in s then Some(s[k]) else None
  }

  /** SET: stores `v` at `k`, whatever was there before. */
  function Set(s: Store, k: Key, v: int): (t: Store)
    ensures Get(t, k) == Some(v)
    ensures OthersUnchanged(s, t, k)
  {
    s[k := v]
  }

  /** INCRBY: a missing key counts as 0; stores and replies with the incremented value. */
  function IncrBy(s: Store, k: Key, delta: int): (r: Reply<int>)
    ensures r.value == Get(s, k).GetOr(0) + delta
    ensures Get(r.store, k) == Some(r.value)
    ensures OthersUnchanged(s, r.store, k)
  {
    var v := Get(s, k).GetOr(0) + delta;
    Reply(Set(s, k, v), v)
  }

  /** INCR: INCRBY with increment 1. */
  function Incr(s: Store, k: Key): Reply<int> {
    IncrBy(s, k, 1)
  }

  /** DECR: INCRBY with increment -1. */
  function Decr(s: Store, k: Key): Reply<int> {
    IncrBy(s, k, -1)
  }
}
