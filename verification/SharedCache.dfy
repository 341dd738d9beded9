/**
 The cache under concurrency, at the granularity of its lock and its atomic clock. A call draws its
 tick first and takes the lock later, so any number of calls may run in between. A run here is any
 sequence of draws and locked sections in which a section uses a tick drawn before and not used yet:
 every interleaving of calls is one, abandoned calls included.
 */
module SharedCaching {
  import opened Wrappers
  import opened CredentialCaching
  import opened CacheHistory

  /** A store that took place. */
  datatype Insertion<K, V> = Insertion(key: K, value: V, at: nat, ttl: nat)

  /** `drawn` are the ticks drawn and not yet used; `log` remembers every store. */
  datatype Shared<K, V> = Shared(entries: Entries<K, V>, clock: nat, drawn: set<nat>, log: seq<Insertion<K, V>>)

  datatype Event<K, V> =
    | DrawTick
    | RunGet(key: K, tick: nat, now: nat)
    | RunInsert(key: K, value: V, ttl: nat, tick: nat, pruneAt: nat, storeAt: nat)
    | RunInvalidate(key: K)

  /** The clock is assumed not to reach 2^64; an insert with no time to live takes no lock. */
  ghost predicate Legal<K, V>(cfg: CacheConfig, s: Shared<K, V>, e: Event<K, V>) {
    match e
    case DrawTick => s.clock + 1 < TWO_TO_THE_64
    case RunGet(_, tick, _) => tick in s.drawn
    case RunInsert(_, _, ttl, tick, _, _) => tick in s.drawn && ttl > 0 && cfg.maxEntries > 0
    case RunInvalidate(_) => true
  }

  ghost function Occur<K, V>(cfg: CacheConfig, s: Shared<K, V>, e: Event<K, V>): Shared<K, V>
    requires Legal(cfg, s, e)
  {
    match e
    case DrawTick => Shared(s.entries, NextTick(s.clock), s.drawn + {s.clock}, s.log)
    case RunGet(key, tick, now) => Shared(Lookup(s.entries, key, tick, now).0, s.clock, s.drawn - {tick}, s.log)
    case RunInsert(key, value, ttl, tick, pruneAt, storeAt) =>
      Shared(Stored(cfg, s.entries, key, value, ttl, tick, pruneAt, storeAt), s.clock, s.drawn - {tick},
             s.log + [Insertion(key, value, storeAt, ttl)])
    case RunInvalidate(key) => Shared(s.entries - {key}, s.clock, s.drawn, s.log)
  }

  ghost function Empty<K, V>(): Shared<K, V> {
    Shared(map[], 0, {}, [])
  }

  /** The states of a run, from an empty cache. */
  ghost predicate IsRun<K(!new), V(!new)>(cfg: CacheConfig, run: seq<Shared<K, V>>) {
    && run != [] && run[0] == Empty()
    && forall i :: 0 <= i < |run| - 1 ==> Follows(cfg, run[i], run[i + 1])
  }

  ghost predicate Follows<K(!new), V(!new)>(cfg: CacheConfig, s: Shared<K, V>, s': Shared<K, V>) {
    exists e: Event<K, V> :: Legal(cfg, s, e) && s' == Occur(cfg, s, e)
  }

  /** The entry is what some store put there; only its last use may differ. */
  ghost predicate Logged<K, V>(log: seq<Insertion<K, V>>, key: K, entry: Entry<V>) {
    exists ins :: ins in log && ins.key == key && ins.value == entry.value && ins.at + ins.ttl == entry.expiresAt
  }

  ghost predicate SharedInv<K, V>(cfg: CacheConfig, s: Shared<K, V>) {
    && |s.entries| <= cfg.maxEntries
    && DistinctUses(s.entries)
    && (forall k :: k in s.entries ==> s.entries[k].lastUsed < s.clock && s.entries[k].lastUsed !in s.drawn)
    && (forall tick :: tick in s.drawn ==> tick < s.clock)
    && (forall k :: k in s.entries ==> Logged(s.log, k, s.entries[k]))
  }

  lemma LoggedLater<K, V>(log: seq<Insertion<K, V>>, log': seq<Insertion<K, V>>, key: K, entry: Entry<V>)
    requires Logged(log, key, entry) && log <= log'
    ensures Logged(log', key, entry)
  {
  }

  lemma GetKeepsInv<K, V>(cfg: CacheConfig, s: Shared<K, V>, key: K, tick: nat, now: nat)
    requires SharedInv(cfg, s) && Legal(cfg, s, RunGet(key, tick, now))
    ensures SharedInv(cfg, Occur(cfg, s, RunGet(key, tick, now)))
  {
  }

  lemma InsertKeepsInv<K, V>(
    cfg: CacheConfig, s: Shared<K, V>, key: K, value: V, ttl: nat, tick: nat, pruneAt: nat, storeAt: nat)
    requires SharedInv(cfg, s) && Legal(cfg, s, RunInsert(key, value, ttl, tick, pruneAt, storeAt))
    ensures SharedInv(cfg, Occur(cfg, s, RunInsert(key, value, ttl, tick, pruneAt, storeAt)))
  {
    StoreKeepsInv(cfg, s.entries, key, value, ttl, tick, pruneAt, storeAt);
    var s' := Occur(cfg, s, RunInsert(key, value, ttl, tick, pruneAt, storeAt));
    forall k | k in s'.entries ensures Logged(s'.log, k, s'.entries[k]) {
      if k == key {
        assert Insertion(key, value, storeAt, ttl) in s'.log;
      } else {
        LoggedLater(s.log, s'.log, k, s.entries[k]);
      }
    }
  }

  lemma EventKeepsInv<K, V>(cfg: CacheConfig, s: Shared<K, V>, e: Event<K, V>)
    requires SharedInv(cfg, s) && Legal(cfg, s, e)
    ensures SharedInv(cfg, Occur(cfg, s, e))
    ensures s.log <= Occur(cfg, s, e).log
  {
    match e
    case DrawTick =>
    case RunGet(key, tick, now) => GetKeepsInv(cfg, s, key, tick, now);
    case RunInsert(key, value, ttl, tick, pruneAt, storeAt) =>
      InsertKeepsInv(cfg, s, key, value, ttl, tick, pruneAt, storeAt);
    case RunInvalidate(key) => RemoveKeepsInv(cfg, s.entries, key);
  }

  /** In every interleaving: never more entries than the maximum, every use below the clock, no two
      entries with the same use, and every entry one that was stored. */
  lemma {:induction false} EveryInterleaving<K(!new), V(!new)>(cfg: CacheConfig, run: seq<Shared<K, V>>, i: nat)
    requires IsRun(cfg, run) && i < |run|
    ensures SharedInv(cfg, run[i])
  {
    if i > 0 {
      EveryInterleaving(cfg, run, i - 1);
      assert Follows(cfg, run[i - 1], run[i - 1 + 1]);
      var e: Event<K, V> :| Legal(cfg, run[i - 1], e) && run[i] == Occur(cfg, run[i - 1], e);
      EventKeepsInv(cfg, run[i - 1], e);
    }
  }

  /** The eviction victim does not depend on the order in which the hash map is scanned, and the
      loop removes at most one entry. */
  lemma VictimIsDetermined<K(!new), V(!new)>(
    cfg: CacheConfig, run: seq<Shared<K, V>>, i: nat, now: nat, after: Entries<K, V>)
    requires IsRun(cfg, run) && i < |run| && cfg.maxEntries > 0
    requires EvictsColdest(Retained(run[i].entries, now), after, cfg.maxEntries)
    ensures after == Evicted(Retained(run[i].entries, now), cfg.maxEntries)
    ensures |Retained(run[i].entries, now)| <= |after| + 1
    ensures forall j, k :: IsColdest(run[i].entries, j) && IsColdest(run[i].entries, k) ==> j == k
  {
    EveryInterleaving(cfg, run, i);
    EvictionIsDetermined(Retained(run[i].entries, now), after, cfg.maxEntries);
    RetainedIsNoLarger(run[i].entries, now);
  }

  /** A hit, in any interleaving, returns a value stored for that very key less than its time to live ago. */
  lemma HitWasStored<K, V>(cfg: CacheConfig, s: Shared<K, V>, key: K, tick: nat, now: nat)
    returns (ins: Insertion<K, V>)
    requires SharedInv(cfg, s) && Lookup(s.entries, key, tick, now).1.Some?
    ensures ins in s.log && ins.key == key && Some(ins.value) == Lookup(s.entries, key, tick, now).1
    ensures now < ins.at + ins.ttl
  {
    assert Logged(s.log, key, s.entries[key]);
    ins :| ins in s.log && ins.key == key && ins.value == s.entries[key].value
        && ins.at + ins.ttl == s.entries[key].expiresAt;
  }

  /** A whole `get` run without interruption is the sequential one. */
  lemma UninterruptedGet<K, V>(cfg: CacheConfig, s: Shared<K, V>, key: K, now: nat)
    requires SharedInv(cfg, s) && Legal(cfg, s, DrawTick)
    ensures var s' := Occur(cfg, Occur(cfg, s, DrawTick), RunGet(key, s.clock, now));
            CredentialCaching.Apply(cfg, Cache(s.entries, s.clock), Op.Get(key, now))
            == (Cache(s'.entries, s'.clock), Lookup(s.entries, key, s.clock, now).1)
            && s'.drawn == s.drawn
  {
  }

  /** And so is a whole `insert`. */
  lemma UninterruptedInsert<K, V>(
    cfg: CacheConfig, s: Shared<K, V>, key: K, value: V, expiresIn: Option<nat>, pruneAt: nat, storeAt: nat)
    requires SharedInv(cfg, s) && Legal(cfg, s, DrawTick) && Caches(cfg, expiresIn)
    ensures var s' :=
        Occur(cfg, Occur(cfg, s, DrawTick), RunInsert(key, value, Ttl(cfg, expiresIn), s.clock, pruneAt, storeAt));
            CredentialCaching.Apply(cfg, Cache(s.entries, s.clock),
                Op.Insert(key, value, expiresIn, pruneAt, storeAt)).0
            == Cache(s'.entries, s'.clock)
            && s'.drawn == s.drawn
  {
  }

  /** Recency is not kept under concurrency: of two overlapping hits, the one that drew its tick first
      may take the lock last, and the entry's last use goes backwards. */
  lemma LastUseMayGoBack(cfg: CacheConfig, value: nat) returns (run: seq<Shared<string, nat>>)
    requires cfg.maxEntries > 0
    ensures IsRun(cfg, run) && |run| > 1
    ensures var s, s' := run[|run| - 2], run[|run| - 1];
            "k" in s.entries && "k" in s'.entries && s'.entries["k"].lastUsed < s.entries["k"].lastUsed
  {
    var e := Empty<string, nat>();
    var s1 := Occur(cfg, e, DrawTick);
    var s2 := Occur(cfg, s1, DrawTick);
    var s3 := Occur(cfg, s2, DrawTick);
    var s4 := Occur(cfg, s3, RunInsert("k", value, 1, 0, 0, 0));
    var s5 := Occur(cfg, s4, RunGet("k", 2, 0));
    var s6 := Occur(cfg, s5, RunGet("k", 1, 0));
    run := [e, s1, s2, s3, s4, s5, s6];
    assert Follows(cfg, e, s1) && Follows(cfg, s1, s2) && Follows(cfg, s2, s3);
    assert Follows(cfg, s3, s4) && Follows(cfg, s4, s5) && Follows(cfg, s5, s6);
  }
}
