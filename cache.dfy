/**
 * The per-thread result cache: a dictionary from "channel:thread" keys to
 * timestamped entries, with a time-to-live checked lazily on read. The clock
 * is a parameter (`now`) of every operation that reads it.
 */
module Cache {
  import opened Wrappers

  /** What `set` stores: the value and the time it was stored. */
  datatype Entry<V> = Entry(value: V, ts: int)

  type Store<V> = map<string, Entry<V>>

  /** `ThreadCache.key`. */
  function Key(channel: string, threadTs: string): string {
    channel + ":" + threadTs
  }

  /** `time.time() - item["ts"] > self.ttl`. */
  predicate Expired<V>(e: Entry<V>, ttl: int, now: int) {
    now - e.ts > ttl
  }

  /** The store after `set(channel, thread_ts, value)` at time `now`. */
  function Stored<V>(store: Store<V>, k: string, v: V, now: int): Store<V> {
    store[k := Entry(v, now)]
  }

  /** What `get` answers, and the store it leaves behind. */
  datatype Lookup<V> = Lookup(value: Option<V>, store: Store<V>)

  /** `get` at time `now`: a miss, an expired entry (which is deleted), or the stored value. */
  function Fetch<V>(store: Store<V>, ttl: int, now: int, k: string): Lookup<V> {
    if k !in store then Lookup(None, store)
    else if Expired(store[k], ttl, now) then Lookup(None, store - {k})
    else Lookup(Some(store[k].value), store)
  }

  class ThreadCache<V> {
    const ttl: int
    var store: Store<V>

    constructor (ttlSeconds: int)
      ensures ttl == ttlSeconds && store == map[]
    {
      ttl := ttlSeconds;
      store := map[];
    }

    method Set(channel: string, threadTs: string, value: V, now: int)
      modifies this
      ensures store == Stored(old(store), Key(channel, threadTs), value, now)
    {
      store := store[Key(channel, threadTs) := Entry(value, now)];
    }

    method Get(channel: string, threadTs: string, now: int) returns (r: Option<V>)
      modifies this
      ensures Lookup(r, store) == Fetch(old(store), ttl, now, Key(channel, threadTs))
    {
      var k := Key(channel, threadTs);
      if k !in store {
        return None;
      }
      var item := store[k];
      if now - item.ts > ttl {
        store := store - {k};
        return None;
      }
      return Some(item.value);
    }
  }

  /** A value read back within the time-to-live (an age of exactly `ttl` included) is the value stored. */
  lemma SetThenGet<V>(store: Store<V>, ttl: int, k: string, v: V, at: int, now: int)
    requires now - at <= ttl
    ensures Fetch(Stored(store, k, v, at), ttl, now, k) == Lookup(Some(v), Stored(store, k, v, at))
  {
  }

  /** Past the time-to-live the read misses and the entry is gone from the store. */
  lemma SetThenGetExpired<V>(store: Store<V>, ttl: int, k: string, v: V, at: int, now: int)
    requires now - at > ttl
    ensures var r := Fetch(Stored(store, k, v, at), ttl, now, k);
      r.value == None && k !in r.store && r.store == store - {k}
  {
  }

  /** Once an expired entry has been dropped, every later read of that key misses and changes nothing. */
  lemma ExpiredStaysGone<V>(store: Store<V>, ttl: int, now: int, later: int, k: string)
    requires k in store && Expired(store[k], ttl, now)
    ensures var s := Fetch(store, ttl, now, k).store;
      Fetch(s, ttl, later, k) == Lookup(None, s)
  {
  }

  /** A read of a key that was never written misses and leaves the store as it was. */
  lemma MissLeavesStore<V>(store: Store<V>, ttl: int, now: int, k: string)
    requires k !in store
    ensures Fetch(store, ttl, now, k) == Lookup(None, store)
  {
  }

  /** A second write to the same key replaces the first. */
  lemma Overwrite<V>(store: Store<V>, k: string, v1: V, v2: V, t1: int, t2: int)
    ensures Stored(Stored(store, k, v1, t1), k, v2, t2) == Stored(store, k, v2, t2)
  {
  }

  /** A write touches only its own key. */
  lemma StoredKeepsOthers<V>(store: Store<V>, k: string, v: V, now: int, other: string)
    requires other != k && other in store
    ensures var s := Stored(store, k, v, now); other in s && s[other] == store[other]
  {
  }

  /** A read touches at most its own key: every other entry is kept as it was. */
  lemma FetchKeepsOthers<V>(store: Store<V>, ttl: int, now: int, k: string, other: string)
    requires other != k && other in store
    ensures var s := Fetch(store, ttl, now, k).store; other in s && s[other] == store[other]
  {
  }

  /** A read never adds an entry, and removes one only when it reports a miss. */
  lemma FetchShrinksOnlyOnMiss<V>(store: Store<V>, ttl: int, now: int, k: string)
    ensures var r := Fetch(store, ttl, now, k);
      r.store.Keys <= store.Keys && (r.store.Keys != store.Keys ==> r.value.None?)
  {
  }

  /** In the key of a channel without a colon, the first colon is the separator. */
  lemma FirstColon(c: string, t: string)
    requires ':' !in c
    ensures |c| < |Key(c, t)| && Key(c, t)[|c|] == ':'
    ensures forall i :: 0 <= i < |c| ==> Key(c, t)[i] != ':'
  {
  }

  /** Keys of channels without a colon never collide: the channel ends at the first colon. */
  lemma {:induction false} KeyInjective(c1: string, t1: string, c2: string, t2: string)
    requires ':' !in c1 && ':' !in c2 && Key(c1, t1) == Key(c2, t2)
    ensures c1 == c2 && t1 == t2
  {
    var k := Key(c1, t1);
    FirstColon(c1, t1);
    FirstColon(c2, t2);
    if |c1| == |c2| {
      assert c1 == k[..|c1|] == c2;
      assert t1 == k[|c1| + 1..] == t2;
    }
  }
}
