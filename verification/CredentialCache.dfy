/**
 The bounded, expiring credential cache: what each operation does to the entries and the logical
 clock, and the object whose methods do it in place. Every reading of the real clock is a parameter.
 */
module CredentialCaching {
  import opened Wrappers

  const TWO_TO_THE_64: nat := 0x1_0000_0000_0000_0000

  datatype CacheConfig = CacheConfig(refreshMargin: nat, fallbackTtl: nat, maxEntries: nat)

  datatype CacheKey<D> = CacheKey(scope: Option<string>, mechanism: string, principal: string, digest: D)

  /** `hash` stands for BLAKE3. */
  function KeyFor<D>(
    hash: string -> D, scope: Option<string>, mechanism: string, principal: string, secret: string): CacheKey<D>
  {
    CacheKey(scope, mechanism, principal, hash(secret))
  }

  datatype Entry<V> = Entry(value: V, expiresAt: nat, lastUsed: nat)

  type Entries<K, V> = map<K, Entry<V>>

  /** The time to live an insert grants; zero means it is not cached at all. */
  function Ttl(cfg: CacheConfig, expiresIn: Option<nat>): nat {
    var asked := if expiresIn.Some? then expiresIn.value else cfg.fallbackTtl;
    if asked <= cfg.refreshMargin then 0 else asked - cfg.refreshMargin
  }

  predicate Caches(cfg: CacheConfig, expiresIn: Option<nat>) {
    Ttl(cfg, expiresIn) > 0 && cfg.maxEntries > 0
  }

  // ---------- the sections that run under the lock ----------

  /** `get` under the read lock, with the tick it drew before. */
  function Lookup<K, V>(entries: Entries<K, V>, key: K, tick: nat, now: nat): (Entries<K, V>, Option<V>) {
    if key in entries && now < entries[key].expiresAt
    then (entries[key := entries[key].(lastUsed := tick)], Some(entries[key].value))
    else (entries, None)
  }

  function Retained<K, V>(entries: Entries<K, V>, now: nat): Entries<K, V> {
    map k | k in entries && entries[k].expiresAt > now :: entries[k]
  }

  ghost predicate IsColdest<K, V>(entries: Entries<K, V>, key: K) {
    key in entries && forall k :: k in entries ==> entries[key].lastUsed <= entries[k].lastUsed
  }

  lemma {:induction false} ColdestExists<K, V>(entries: Entries<K, V>)
    requires entries != map[]
    ensures exists key :: IsColdest(entries, key)
    decreases |entries|
  {
    var k :| k in entries;
    var rest := entries - {k};
    if rest == map[] {
      assert rest.Keys == entries.Keys - {k} && entries.Keys == rest.Keys + {k};
      assert IsColdest(entries, k);
    } else {
      assert rest.Keys == entries.Keys - {k};
      ColdestExists(rest);
      var c :| IsColdest(rest, c);
      var best := if entries[k].lastUsed < entries[c].lastUsed then k else c;
      forall j | j in entries ensures entries[best].lastUsed <= entries[j].lastUsed {
        if j != k { assert j in rest; }
      }
      assert IsColdest(entries, best);
    }
  }

  /** The key that eviction removes. With distinct uses there is only one candidate. */
  ghost function Coldest<K, V>(entries: Entries<K, V>): (key: K)
    requires entries != map[]
    ensures IsColdest(entries, key)
  {
    ColdestExists(entries);
    var key :| IsColdest(entries, key);
    key
  }

  /** Evict until there is room for one more. */
  ghost function Evicted<K, V>(entries: Entries<K, V>, max: nat): Entries<K, V>
    requires max > 0
    decreases |entries|
  {
    if |entries| < max then entries
    else
      var rest := entries - {Coldest(entries)};
      assert rest.Keys == entries.Keys - {Coldest(entries)};
      Evicted(rest, max)
  }

  ghost function WithRoom<K, V>(cfg: CacheConfig, entries: Entries<K, V>, key: K, now: nat): Entries<K, V>
    requires cfg.maxEntries > 0
  {
    if |entries| >= cfg.maxEntries && key !in entries
    then Evicted(Retained(entries, now), cfg.maxEntries)
    else entries
  }

  /** `insert` under the write lock, with the tick it drew before. */
  ghost function Stored<K, V>(
    cfg: CacheConfig, entries: Entries<K, V>, key: K, value: V, ttl: nat, tick: nat, pruneAt: nat, storeAt: nat)
    : Entries<K, V>
    requires cfg.maxEntries > 0
  {
    WithRoom(cfg, entries, key, pruneAt)[key := Entry(value, storeAt + ttl, tick)]
  }

  /** No two entries were used at the same tick. */
  ghost predicate DistinctUses<K, V>(entries: Entries<K, V>) {
    forall j, k :: j in entries && k in entries && j != k ==> entries[j].lastUsed != entries[k].lastUsed
  }

  // ---------- what eviction may remove, whatever order the hash map is scanned in ----------

  /** `after` is `before` without as few entries as make room, and no kept entry was used earlier
      than a removed one. */
  ghost predicate EvictsColdest<K, V>(before: Entries<K, V>, after: Entries<K, V>, max: nat) {
    && after.Keys <= before.Keys
    && (forall k :: k in after ==> after[k] == before[k])
    && |after| == (if |before| < max then |before| else max - 1)
    && (forall r, k :: r in before && r !in after && k in after ==> before[r].lastUsed <= before[k].lastUsed)
  }

  lemma {:induction false} EvictedEvictsColdest<K, V>(entries: Entries<K, V>, max: nat)
    requires max > 0
    ensures EvictsColdest(entries, Evicted(entries, max), max)
    decreases |entries|
  {
    if |entries| >= max {
      var rest := entries - {Coldest(entries)};
      assert rest.Keys == entries.Keys - {Coldest(entries)};
      EvictedEvictsColdest(rest, max);
    }
  }

  /** With distinct uses the victims are the same in whatever order the entries are scanned. */
  lemma EvictionIsDetermined<K, V>(entries: Entries<K, V>, after: Entries<K, V>, max: nat)
    requires max > 0 && DistinctUses(entries)
    ensures EvictsColdest(entries, after, max) <==> after == Evicted(entries, max)
  {
    EvictedEvictsColdest(entries, max);
    var other := Evicted(entries, max);
    if EvictsColdest(entries, after, max) {
      // Two ways to keep equally many of the most recently used keep the same ones.
      SameSizeSets(after.Keys, other.Keys);
      assert after.Keys - other.Keys == {} || other.Keys - after.Keys == {};
      assert after == other;
    }
  }

  lemma SameSizeSets<K>(a: set<K>, b: set<K>)
    requires |a| == |b|
    ensures a - b == {} <==> b - a == {}
    ensures a - b == {} ==> a == b
  {
    assert |a| == |a - b| + |a * b| by { assert a == (a - b) + (a * b); }
    assert |b| == |b - a| + |b * a| by { assert b == (b - a) + (b * a); }
    assert a * b == b * a;
    if a - b == {} {
      assert |b - a| == 0;
    }
    if b - a == {} {
      assert |a - b| == 0;
    }
  }

  // ---------- whole operations, one after another ----------

  datatype Op<K, V> =
    | Get(key: K, now: nat)
    | Insert(key: K, value: V, expiresIn: Option<nat>, pruneAt: nat, storeAt: nat)
    | Invalidate(key: K, now: nat)

  datatype Cache<K, V> = Cache(entries: Entries<K, V>, clock: nat)

  /** `fetch_add` on a `u64` wraps around. */
  function NextTick(clock: nat): nat {
    if clock + 1 == TWO_TO_THE_64 then 0 else clock + 1
  }

  lemma TicksWrap(clock: nat)
    requires clock < TWO_TO_THE_64
    ensures NextTick(clock) == (clock + 1) % TWO_TO_THE_64
  {
  }

  /** The cache after one operation, and what a `get` answered. */
  ghost function Apply<K, V>(cfg: CacheConfig, c: Cache<K, V>, op: Op<K, V>): (Cache<K, V>, Option<V>) {
    match op
    case Get(key, now) =>
      var (entries, answer) := Lookup(c.entries, key, c.clock, now);
      (Cache(entries, NextTick(c.clock)), answer)
    case Insert(key, value, expiresIn, pruneAt, storeAt) =>
      if !Caches(cfg, expiresIn) then (c, None)
      else (Cache(Stored(cfg, c.entries, key, value, Ttl(cfg, expiresIn), c.clock, pruneAt, storeAt),
          NextTick(c.clock)), None)
    case Invalidate(key, _) => (Cache(c.entries - {key}, c.clock), None)
  }

  // ---------- the object ----------

  class CredentialCache<K(==), V> {
    const config: CacheConfig
    var entries: map<K, Entry<V>>
    var clock: nat

    ghost function View(): Cache<K, V>
      reads this
    {
      Cache(entries, clock)
    }

    constructor (config: CacheConfig)
      ensures this.config == config && View() == Cache(map[], 0)
    {
      this.config := config;
      entries := map[];
      clock := 0;
    }

    method Tick() returns (tick: nat)
      modifies this`clock
      ensures tick == old(clock) && clock == NextTick(old(clock))
    {
      tick := clock;
      clock := if clock + 1 == TWO_TO_THE_64 then 0 else clock + 1;
    }

    method Get(key: K, now: nat) returns (answer: Option<V>)
      modifies this
      ensures (View(), answer) == Apply(config, old(View()), Op.Get(key, now))
    {
      var tick := Tick();
      if key in entries && now < entries[key].expiresAt {
        answer := Some(entries[key].value);
        entries := entries[key := entries[key].(lastUsed := tick)];
      } else {
        answer := None;
      }
    }

    /** Scans the entries in an order nobody chooses. */
    method FindColdest() returns (coldest: Option<K>)
      ensures coldest.None? <==> entries == map[]
      ensures coldest.Some? ==> IsColdest(entries, coldest.value)
    {
      var rest := entries.Keys;
      coldest := None;
      while rest != {}
        invariant rest <= entries.Keys
        invariant coldest.None? <==> rest == entries.Keys
        invariant coldest.Some? ==> coldest.value in entries
        invariant coldest.Some? ==> forall k :: k in entries && k !in rest ==>
            entries[coldest.value].lastUsed <= entries[k].lastUsed
        decreases |rest|
      {
        var k :| k in rest;
        rest := rest - {k};
        if coldest.None? || entries[k].lastUsed < entries[coldest.value].lastUsed {
          coldest := Some(k);
        }
      }
    }

    /** The eviction loop: some coldest entry goes until there is room. */
    method Evict()
      requires config.maxEntries > 0
      modifies this`entries
      ensures EvictsColdest(old(entries), entries, config.maxEntries)
    {
      while |entries| >= config.maxEntries
        invariant entries.Keys <= old(entries).Keys
        invariant forall k :: k in entries ==> entries[k] == old(entries)[k]
        invariant |entries| == |old(entries)| || |entries| >= config.maxEntries - 1
        invariant |entries| <= |old(entries)|
        invariant forall r, k :: r in old(entries) && r !in entries && k in entries ==>
            old(entries)[r].lastUsed <= old(entries)[k].lastUsed
        decreases |entries|
      {
        var coldest := FindColdest();
        if coldest.None? {
          break;
        }
        assert (entries - {coldest.value}).Keys == entries.Keys - {coldest.value};
        entries := entries - {coldest.value};
      }
    }

    /** Pruning and evicting, only at capacity and only for a new key. */
    method MakeRoom(key: K, pruneAt: nat)
      requires config.maxEntries > 0
      modifies this`entries
      ensures |old(entries)| < config.maxEntries || key in old(entries) ==> entries == old(entries)
      ensures |old(entries)| >= config.maxEntries && key !in old(entries) ==>
                EvictsColdest(Retained(old(entries), pruneAt), entries, config.maxEntries)
      ensures DistinctUses(old(entries)) ==> entries == WithRoom(config, old(entries), key, pruneAt)
    {
      if |entries| >= config.maxEntries && key !in entries {
        entries := map k | k in entries && entries[k].expiresAt > pruneAt :: entries[k];
        ghost var kept := entries;
        assert kept == Retained(old(entries), pruneAt);
        Evict();
        if DistinctUses(old(entries)) {
          EvictionIsDetermined(kept, entries, config.maxEntries);
        }
      }
    }

    method Insert(key: K, value: V, expiresIn: Option<nat>, pruneAt: nat, storeAt: nat)
      modifies this
      ensures !Caches(config, expiresIn) ==> View() == old(View())
      ensures Caches(config, expiresIn) ==>
                && clock == NextTick(old(clock)) && key in entries
                && entries[key] == Entry(value, storeAt + Ttl(config, expiresIn), old(clock))
      ensures Caches(config, expiresIn) && (|old(entries)| < config.maxEntries || key in old(entries)) ==>
                entries == old(entries)[key := entries[key]]
      ensures Caches(config, expiresIn) && |old(entries)| >= config.maxEntries && key !in old(entries) ==>
                EvictsColdest(Retained(old(entries), pruneAt), entries - {key}, config.maxEntries)
      ensures DistinctUses(old(entries)) ==>
                View() == Apply(config, old(View()), Op.Insert(key, value, expiresIn, pruneAt, storeAt)).0
    {
      var asked := match expiresIn case Some(d) => d case None => config.fallbackTtl;
      var ttl := if asked <= config.refreshMargin then 0 else asked - config.refreshMargin;
      if ttl == 0 || config.maxEntries == 0 {
        return;
      }
      var tick := Tick();
      MakeRoom(key, pruneAt);
      ghost var room := entries;
      entries := entries[key := Entry(value, storeAt + ttl, tick)];
      assert key !in room ==> entries - {key} == room;
      assert |old(entries)| >= config.maxEntries && key !in old(entries) ==> key !in room;
    }

    method Remove(key: K, ghost now: nat)
      modifies this
      ensures View() == Apply(config, old(View()), Op.Invalidate(key, now)).0
    {
      entries := entries - {key};
    }

    method Len() returns (n: nat)
      ensures n == |entries|
    {
      n := |entries|;
    }
  }
}
