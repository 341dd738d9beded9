/** Sequential histories of a cache, and the invariant of every state they reach. */
module CacheHistory {
  import opened Wrappers
  import opened CredentialCaching

  /** The cache after a history, from empty. */
  ghost function StateAfter<K, V>(cfg: CacheConfig, ops: seq<Op<K, V>>): Cache<K, V> {
    if ops == [] then Cache(map[], 0)
    else CredentialCaching.Apply(cfg, StateAfter(cfg, ops[..|ops| - 1]), ops[|ops| - 1]).0
  }

  /** What the last operation of a history answered. */
  ghost function AnswerAfter<K, V>(cfg: CacheConfig, ops: seq<Op<K, V>>): Option<V> {
    if ops == [] then None
    else CredentialCaching.Apply(cfg, StateAfter(cfg, ops[..|ops| - 1]), ops[|ops| - 1]).1
  }

  /** Everything a history answered, in order. */
  ghost function Answers<K, V>(cfg: CacheConfig, ops: seq<Op<K, V>>): seq<Option<V>> {
    if ops == [] then [] else Answers(cfg, ops[..|ops| - 1]) + [AnswerAfter(cfg, ops)]
  }

  function StartTime<K, V>(op: Op<K, V>): nat {
    match op case Get(_, now) => now case Insert(_, _, _, pruneAt, _) => pruneAt case Invalidate(_, now) => now
  }

  function EndTime<K, V>(op: Op<K, V>): nat {
    match op case Get(_, now) => now case Insert(_, _, _, _, storeAt) => storeAt case Invalidate(_, now) => now
  }

  function LastTime<K, V>(ops: seq<Op<K, V>>): nat {
    if ops == [] then 0 else EndTime(ops[|ops| - 1])
  }

  /** The real clock never runs backwards along the history. */
  predicate Monotone<K, V>(ops: seq<Op<K, V>>) {
    ops == [] ||
    (Monotone(ops[..|ops| - 1]) && LastTime(ops[..|ops| - 1]) <= StartTime(ops[|ops| - 1]) <= EndTime(ops[|ops| - 1]))
  }

  ghost predicate CacheInv<K, V>(cfg: CacheConfig, c: Cache<K, V>) {
    && |c.entries| <= cfg.maxEntries
    && DistinctUses(c.entries)
    && forall k :: k in c.entries ==> c.entries[k].lastUsed < c.clock
  }

  /** At capacity, eviction keeps all but the coldest. */
  lemma EvictedOnce<K, V>(entries: Entries<K, V>, max: nat)
    requires max > 0 && |entries| <= max
    ensures |entries| < max ==> Evicted(entries, max) == entries
    ensures |entries| == max ==> Evicted(entries, max) == entries - {Coldest(entries)}
  {
  }

  lemma RetainedIsNoLarger<K, V>(entries: Entries<K, V>, now: nat)
    ensures |Retained(entries, now)| <= |entries|
  {
    SubsetIsNoLarger(Retained(entries, now).Keys, entries.Keys);
  }

  lemma SubsetIsNoLarger<K>(a: set<K>, b: set<K>)
    requires a <= b
    ensures |a| <= |b| && (a != b ==> |a| < |b|)
  {
    assert b == a + (b - a);
  }

  lemma MadeRoom<K, V>(cfg: CacheConfig, entries: Entries<K, V>, key: K, now: nat)
    requires cfg.maxEntries > 0 && |entries| <= cfg.maxEntries
    ensures var room := WithRoom(cfg, entries, key, now);
            && room.Keys <= entries.Keys && (forall k :: k in room ==> room[k] == entries[k])
            && |room.Keys + {key}| <= cfg.maxEntries
  {
    RetainedIsNoLarger(entries, now);
    var room := WithRoom(cfg, entries, key, now);
    EvictedEvictsColdest(Retained(entries, now), cfg.maxEntries);
    if key in room {
      assert room.Keys + {key} == room.Keys;
    }
  }

  /** A hit overwrites the last use with a tick nobody has used. */
  lemma LookupKeepsInv<K, V>(cfg: CacheConfig, entries: Entries<K, V>, key: K, tick: nat, now: nat)
    requires |entries| <= cfg.maxEntries && DistinctUses(entries)
    requires forall k :: k in entries ==> entries[k].lastUsed != tick
    ensures var entries' := Lookup(entries, key, tick, now).0;
            && |entries'| <= cfg.maxEntries && DistinctUses(entries') && entries'.Keys == entries.Keys
            && forall k :: k in entries' ==> entries'[k].lastUsed == tick || entries'[k] == entries[k]
  {
  }

  /** A store never leaves more than the maximum, and its tick is the newest use of its key. */
  lemma StoreKeepsInv<K, V>(
    cfg: CacheConfig, entries: Entries<K, V>, key: K, value: V, ttl: nat, tick: nat, pruneAt: nat, storeAt: nat)
    requires cfg.maxEntries > 0 && |entries| <= cfg.maxEntries && DistinctUses(entries)
    requires forall k :: k in entries ==> entries[k].lastUsed != tick
    ensures var entries' := Stored(cfg, entries, key, value, ttl, tick, pruneAt, storeAt);
            && |entries'| <= cfg.maxEntries && DistinctUses(entries')
            && forall k :: k in entries' && k != key ==> k in entries && entries'[k] == entries[k]
  {
    MadeRoom(cfg, entries, key, pruneAt);
    var room := WithRoom(cfg, entries, key, pruneAt);
    assert Stored(cfg, entries, key, value, ttl, tick, pruneAt, storeAt).Keys == room.Keys + {key};
  }

  lemma RemoveKeepsInv<K, V>(cfg: CacheConfig, entries: Entries<K, V>, key: K)
    requires |entries| <= cfg.maxEntries && DistinctUses(entries)
    ensures |entries - {key}| <= cfg.maxEntries && DistinctUses(entries - {key})
  {
  }

  lemma ApplyKeepsInv<K, V>(cfg: CacheConfig, c: Cache<K, V>, op: Op<K, V>)
    requires CacheInv(cfg, c) && c.clock + 1 < TWO_TO_THE_64
    ensures CacheInv(cfg, CredentialCaching.Apply(cfg, c, op).0)
    ensures CredentialCaching.Apply(cfg, c, op).0.clock <= c.clock + 1
  {
    match op
    case Get(key, now) => LookupKeepsInv(cfg, c.entries, key, c.clock, now);
    case Insert(key, value, expiresIn, pruneAt, storeAt) =>
      if Caches(cfg, expiresIn) {
        StoreKeepsInv(cfg, c.entries, key, value, Ttl(cfg, expiresIn), c.clock, pruneAt, storeAt);
      }
    case Invalidate(key, _) => RemoveKeepsInv(cfg, c.entries, key);
  }

  /** After fewer than 2^64 operations: bounded, every tick drawn is below the clock and used once. */
  lemma {:induction false} HistoryKeepsInv<K, V>(cfg: CacheConfig, ops: seq<Op<K, V>>)
    requires |ops| < TWO_TO_THE_64
    ensures CacheInv(cfg, StateAfter(cfg, ops)) && StateAfter(cfg, ops).clock <= |ops|
  {
    if ops != [] {
      HistoryKeepsInv(cfg, ops[..|ops| - 1]);
      ApplyKeepsInv(cfg, StateAfter(cfg, ops[..|ops| - 1]), ops[|ops| - 1]);
    }
  }

  /** How long an entry lasts: with `lifetime` the reported or else the fallback lifetime, a `get` after the
      store finds it exactly until that lifetime, less the margin, is over. */
  lemma InsertThenGetIff<K, V>(
    cfg: CacheConfig, c: Cache<K, V>, key: K, value: V, expiresIn: Option<nat>, pruneAt: nat, storeAt: nat, now: nat)
    requires key !in c.entries && storeAt <= now
    ensures var lifetime := if expiresIn.Some? then expiresIn.value else cfg.fallbackTtl;
            var c' := CredentialCaching.Apply(cfg, c, Op.Insert(key, value, expiresIn, pruneAt, storeAt)).0;
            CredentialCaching.Apply(cfg, c', Op.Get(key, now)).1
            == if cfg.maxEntries > 0 && now + cfg.refreshMargin < storeAt + lifetime then Some(value) else None
  {
  }

  /** An older entry of the key is replaced, unless the lifetime is no longer than the margin: then it stays. */
  lemma InsertOverIff<K, V>(
    cfg: CacheConfig, c: Cache<K, V>, key: K, value: V, expiresIn: Option<nat>, pruneAt: nat, storeAt: nat, now: nat)
    requires key in c.entries && cfg.maxEntries > 0 && storeAt <= now
    ensures var lifetime := if expiresIn.Some? then expiresIn.value else cfg.fallbackTtl;
            var c' := CredentialCaching.Apply(cfg, c, Op.Insert(key, value, expiresIn, pruneAt, storeAt)).0;
            CredentialCaching.Apply(cfg, c', Op.Get(key, now)).1
            == if lifetime <= cfg.refreshMargin then
                 (if now < c.entries[key].expiresAt then Some(c.entries[key].value) else None)
               else if now + cfg.refreshMargin < storeAt + lifetime then Some(value)
               else None
  {
  }
}
