/**
 The reference the lazy cache refines: a list in order of use that drops every expired item before
 each operation. The cache answers the same although it prunes only at capacity.
 */
module CacheRefinement {
  import opened Wrappers
  import opened CredentialCaching
  import opened CacheHistory

  datatype Item<K, V> = Item(key: K, value: V, expiresAt: nat)

  /** The unexpired items, in order, except the one for `drop`. */
  ghost function Kept<K, V>(items: seq<Item<K, V>>, now: nat, drop: Option<K>): seq<Item<K, V>> {
    if items == [] then []
    else
      var last := items[|items| - 1];
      Kept(items[..|items| - 1], now, drop) + if now < last.expiresAt && drop != Some(last.key) then [last] else []
  }

  ghost predicate HasKey<K, V>(items: seq<Item<K, V>>, key: K) {
    exists i :: 0 <= i < |items| && items[i].key == key
  }

  ghost function ItemFor<K, V>(items: seq<Item<K, V>>, key: K): Item<K, V>
    requires HasKey(items, key)
  {
    var i :| 0 <= i < |items| && items[i].key == key;
    items[i]
  }

  /** The list after an insert: at capacity the head goes. */
  ghost function EagerStored<K, V>(
    cfg: CacheConfig, items: seq<Item<K, V>>, key: K, value: V, ttl: nat, pruneAt: nat, storeAt: nat): seq<Item<K, V>>
    requires cfg.maxEntries > 0
  {
    var others := Kept(items, pruneAt, Some(key));
    (if |others| >= cfg.maxEntries then others[1..] else others) + [Item(key, value, storeAt + ttl)]
  }

  /** One operation on the list; least recently used first. */
  ghost function EagerApply<K, V>(cfg: CacheConfig, items: seq<Item<K, V>>, op: Op<K, V>): (seq<Item<K, V>>, Option<V>)
  {
    match op
    case Get(key, now) =>
      var live := Kept(items, now, None);
      if HasKey(live, key) then (Kept(items, now, Some(key)) + [ItemFor(live, key)], Some(ItemFor(live, key).value))
      else (live, None)
    case Insert(key, value, expiresIn, pruneAt, storeAt) =>
      if !Caches(cfg, expiresIn) then (items, None)
      else (EagerStored(cfg, items, key, value, Ttl(cfg, expiresIn), pruneAt, storeAt), None)
    case Invalidate(key, now) => (Kept(items, now, Some(key)), None)
  }

  ghost function EagerAfter<K, V>(cfg: CacheConfig, ops: seq<Op<K, V>>): seq<Item<K, V>> {
    if ops == [] then []
    else EagerApply(cfg, EagerAfter(cfg, ops[..|ops| - 1]), ops[|ops| - 1]).0
  }

  ghost function EagerAnswers<K, V>(cfg: CacheConfig, ops: seq<Op<K, V>>): seq<Option<V>> {
    if ops == [] then []
    else EagerAnswers(cfg, ops[..|ops| - 1]) + [EagerApply(cfg, EagerAfter(cfg, ops[..|ops| - 1]), ops[|ops| - 1]).1]
  }

  // ---------- the relation between the two ----------

  ghost predicate Matches<K, V>(entries: Entries<K, V>, item: Item<K, V>) {
    item.key in entries && entries[item.key].value == item.value && entries[item.key].expiresAt == item.expiresAt
  }

  /** The items are entries, in the order of their last use. */
  ghost predicate InUseOrder<K, V>(entries: Entries<K, V>, items: seq<Item<K, V>>) {
    && (forall i :: 0 <= i < |items| ==> Matches(entries, items[i]))
    && (forall i, j :: 0 <= i < j < |items| ==> entries[items[i].key].lastUsed < entries[items[j].key].lastUsed)
  }

  /** The items are exactly the entries unexpired at `now`. */
  ghost predicate Related<K, V>(entries: Entries<K, V>, items: seq<Item<K, V>>, now: nat) {
    && InUseOrder(entries, items)
    && (forall k :: k in entries && now < entries[k].expiresAt ==> HasKey(items, k))
  }

  lemma HasKeyInBoth<K, V>(a: seq<Item<K, V>>, b: seq<Item<K, V>>, key: K)
    ensures HasKey(a + b, key) <==> HasKey(a, key) || HasKey(b, key)
  {
    if HasKey(a, key) {
      var i :| 0 <= i < |a| && a[i].key == key;
      assert (a + b)[i].key == key;
    }
    if HasKey(b, key) {
      var i :| 0 <= i < |b| && b[i].key == key;
      assert (a + b)[|a| + i].key == key;
    }
  }

  /** The item survives. */
  ghost predicate Survives<K, V>(item: Item<K, V>, now: nat, drop: Option<K>) {
    now < item.expiresAt && drop != Some(item.key)
  }

  /** Keeping loses no surviving item, adds none, and keeps the order. */
  lemma {:induction false} KeptIsInUseOrder<K, V>(
    entries: Entries<K, V>, items: seq<Item<K, V>>, now: nat, drop: Option<K>)
    requires InUseOrder(entries, items)
    ensures InUseOrder(entries, Kept(items, now, drop))
    ensures forall i :: 0 <= i < |Kept(items, now, drop)| ==>
              Survives(Kept(items, now, drop)[i], now, drop) && Kept(items, now, drop)[i] in items
  {
    if items != [] {
      KeptIsInUseOrder(entries, items[..|items| - 1], now, drop);
      assert items == items[..|items| - 1] + [items[|items| - 1]];
    }
  }

  lemma {:induction false} KeptHasSurvivors<K, V>(items: seq<Item<K, V>>, i: nat, now: nat, drop: Option<K>)
    requires i < |items| && Survives(items[i], now, drop)
    ensures HasKey(Kept(items, now, drop), items[i].key)
  {
    var n := |items| - 1;
    var front := Kept(items[..n], now, drop);
    if i < n {
      KeptHasSurvivors(items[..n], i, now, drop);
    }
    var tail := if Survives(items[n], now, drop) then [items[n]] else [];
    assert Survives(items[n], now, drop) ==> tail[0].key == items[n].key && HasKey(tail, items[n].key);
    HasKeyInBoth(front, tail, items[i].key);
    assert Kept(items, now, drop) == front + tail;
  }

  /** What survives of related items is related to what survives of the entries. */
  lemma KeptIsRelated<K, V>(entries: Entries<K, V>, items: seq<Item<K, V>>, t: nat, now: nat, drop: Option<K>)
    requires Related(entries, items, t) && t <= now
    ensures Related(if drop.Some? then entries - {drop.value} else entries, Kept(items, now, drop), now)
    ensures Related(Retained(if drop.Some? then entries - {drop.value} else entries, now), Kept(items, now, drop), now)
  {
    KeptIsInUseOrder(entries, items, now, drop);
    forall k | k in entries && now < entries[k].expiresAt && drop != Some(k) ensures HasKey(Kept(items, now, drop), k) {
      assert HasKey(items, k);
      var i :| 0 <= i < |items| && items[i].key == k;
      assert Matches(entries, items[i]);
      KeptHasSurvivors(items, i, now, drop);
    }
  }

  /** A use moves the item to the end. */
  lemma UsedItemGoesLast<K, V>(entries: Entries<K, V>, items: seq<Item<K, V>>, now: nat, item: Item<K, V>, tick: nat)
    requires Related(entries - {item.key}, items, now)
    requires forall k :: k in entries ==> entries[k].lastUsed < tick
    ensures Related(entries[item.key := Entry(item.value, item.expiresAt, tick)], items + [item], now)
  {
    var entries' := entries[item.key := Entry(item.value, item.expiresAt, tick)];
    var items' := items + [item];
    forall k | k in entries' && now < entries'[k].expiresAt ensures HasKey(items', k) {
      if k == item.key {
        assert items'[|items|].key == k;
      } else {
        assert k in entries - {item.key};
        var i :| 0 <= i < |items| && items[i].key == k;
        assert items'[i].key == k;
      }
    }
  }

  /** Time only shrinks what has to be listed. */
  lemma RelatedLater<K, V>(entries: Entries<K, V>, items: seq<Item<K, V>>, t: nat, now: nat)
    requires Related(entries, items, t) && t <= now
    ensures Related(entries, items, now)
  {
  }

  lemma {:induction false} ListIsNoLonger<K, V>(entries: Entries<K, V>, items: seq<Item<K, V>>)
    requires InUseOrder(entries, items)
    ensures |items| <= |entries|
    ensures (forall k :: k in entries ==> HasKey(items, k)) ==> |items| == |entries|
  {
    if items == [] {
      if forall k :: k in entries ==> HasKey(items, k) {
        assert entries.Keys == {};
      }
    } else {
      var n := |items| - 1;
      var rest := entries - {items[n].key};
      assert rest.Keys == entries.Keys - {items[n].key};
      ListIsNoLonger(rest, items[..n]);
      if forall k :: k in entries ==> HasKey(items, k) {
        forall k | k in rest ensures HasKey(items[..n], k) {
          assert HasKey(items, k);
          var i :| 0 <= i < |items| && items[i].key == k;
          assert items[..n][i].key == k;
        }
      }
    }
  }

  /** The coldest entry is the head of the list. */
  lemma ColdestIsHead<K, V>(entries: Entries<K, V>, items: seq<Item<K, V>>, key: K)
    requires InUseOrder(entries, items) && HasKey(items, key) && IsColdest(entries, key)
    ensures items[0].key == key
  {
  }

  /** Dropping the head drops its key alone. */
  lemma TailIsRelated<K, V>(entries: Entries<K, V>, items: seq<Item<K, V>>, now: nat)
    requires Related(entries, items, now) && items != []
    ensures Related(entries - {items[0].key}, items[1..], now)
  {
  }

  /** At capacity with a new key: pruning and evicting the coldest is dropping the head of the list. */
  lemma EvictionDropsHead<K, V>(cfg: CacheConfig, entries: Entries<K, V>, items: seq<Item<K, V>>, now: nat)
    requires cfg.maxEntries > 0 && |entries| <= cfg.maxEntries
    requires Related(entries, items, now) && (forall k :: k in entries ==> now < entries[k].expiresAt)
    ensures Related(Evicted(entries, cfg.maxEntries), if |items| >= cfg.maxEntries then items[1..] else items, now)
  {
    ListIsNoLonger(entries, items);
    EvictedOnce(entries, cfg.maxEntries);
    if |items| >= cfg.maxEntries {
      ColdestIsHead(entries, items, Coldest(entries));
      TailIsRelated(entries, items, now);
    }
  }

  // ---------- one operation ----------

  lemma GetRefines<K, V>(cfg: CacheConfig, c: Cache<K, V>, items: seq<Item<K, V>>, t: nat, key: K, now: nat)
    requires CacheInv(cfg, c) && Related(c.entries, items, t) && t <= now
    ensures var (c', a) := CredentialCaching.Apply(cfg, c, Op.Get(key, now));
            var (items', a') := EagerApply(cfg, items, Op.Get(key, now));
            a == a' && Related(c'.entries, items', now)
  {
    KeptIsRelated(c.entries, items, t, now, None);
    var live := Kept(items, now, None);
    KeptIsInUseOrder(c.entries, items, now, None);
    if HasKey(live, key) {
      KeptIsRelated(c.entries, items, t, now, Some(key));
      UsedItemGoesLast(c.entries, Kept(items, now, Some(key)), now, ItemFor(live, key), c.clock);
    }
  }

  lemma RoomAtCapacity<K, V>(cfg: CacheConfig, entries: Entries<K, V>, items: seq<Item<K, V>>, t: nat, key: K, now: nat)
    requires cfg.maxEntries > 0 && |entries| == cfg.maxEntries && key !in entries
    requires Related(entries, items, t) && t <= now
    ensures var others := Kept(items, now, Some(key));
            Related(WithRoom(cfg, entries, key, now), if |others| >= cfg.maxEntries then others[1..] else others, now)
  {
    var live := Retained(entries, now);
    KeptIsRelated(entries, items, t, now, Some(key));
    assert entries - {key} == entries;
    RetainedIsNoLarger(entries, now);
    EvictionDropsHead(cfg, live, Kept(items, now, Some(key)), now);
  }

  lemma RoomBelowCapacity<K, V>(
    cfg: CacheConfig, entries: Entries<K, V>, items: seq<Item<K, V>>, t: nat, key: K, now: nat)
    requires cfg.maxEntries > 0 && |entries| <= cfg.maxEntries && (|entries| < cfg.maxEntries || key in entries)
    requires Related(entries, items, t) && t <= now
    ensures Related(entries - {key}, Kept(items, now, Some(key)), now) && |Kept(items, now, Some(key))| < cfg.maxEntries
  {
    KeptIsRelated(entries, items, t, now, Some(key));
    assert (entries - {key}).Keys == entries.Keys - {key};
    ListIsNoLonger(entries - {key}, Kept(items, now, Some(key)));
  }

  /** The room an insert makes is the room the list makes. */
  lemma RoomRefines<K, V>(cfg: CacheConfig, entries: Entries<K, V>, items: seq<Item<K, V>>, t: nat, key: K, now: nat)
    requires cfg.maxEntries > 0 && |entries| <= cfg.maxEntries
    requires Related(entries, items, t) && t <= now
    ensures var others := Kept(items, now, Some(key));
            Related(WithRoom(cfg, entries, key, now) - {key},
                    if |others| >= cfg.maxEntries then others[1..] else others, now)
  {
    if |entries| >= cfg.maxEntries && key !in entries {
      RoomAtCapacity(cfg, entries, items, t, key, now);
      MadeRoom(cfg, entries, key, now);
      assert WithRoom(cfg, entries, key, now) - {key} == WithRoom(cfg, entries, key, now);
    } else {
      RoomBelowCapacity(cfg, entries, items, t, key, now);
    }
  }

  lemma RoomIsOlder<K, V>(cfg: CacheConfig, c: Cache<K, V>, key: K, now: nat)
    requires CacheInv(cfg, c) && cfg.maxEntries > 0
    ensures forall k :: k in WithRoom(cfg, c.entries, key, now) ==>
        WithRoom(cfg, c.entries, key, now)[k].lastUsed < c.clock
  {
    MadeRoom(cfg, c.entries, key, now);
  }

  lemma StoreRefines<K, V>(
    cfg: CacheConfig, c: Cache<K, V>, items: seq<Item<K, V>>, t: nat, key: K, value: V, ttl: nat, pruneAt: nat,
    storeAt: nat)
    requires CacheInv(cfg, c) && cfg.maxEntries > 0 && Related(c.entries, items, t) && t <= pruneAt <= storeAt
    ensures Related(Stored(cfg, c.entries, key, value, ttl, c.clock, pruneAt, storeAt),
                    EagerStored(cfg, items, key, value, ttl, pruneAt, storeAt), storeAt)
  {
    var others := Kept(items, pruneAt, Some(key));
    var kept := if |others| >= cfg.maxEntries then others[1..] else others;
    var room := WithRoom(cfg, c.entries, key, pruneAt);
    RoomRefines(cfg, c.entries, items, t, key, pruneAt);
    RelatedLater(room - {key}, kept, pruneAt, storeAt);
    RoomIsOlder(cfg, c, key, pruneAt);
    UsedItemGoesLast(room, kept, storeAt, Item(key, value, storeAt + ttl), c.clock);
  }

  lemma InsertUnfolds<K, V>(cfg: CacheConfig, c: Cache<K, V>, items: seq<Item<K, V>>, op: Op<K, V>)
    requires op.Insert? && Caches(cfg, op.expiresIn)
    ensures CredentialCaching.Apply(cfg, c, op).0.entries
            == Stored(cfg, c.entries, op.key, op.value, Ttl(cfg, op.expiresIn), c.clock, op.pruneAt, op.storeAt)
    ensures EagerApply(cfg, items, op).0
            == EagerStored(cfg, items, op.key, op.value, Ttl(cfg, op.expiresIn), op.pruneAt, op.storeAt)
  {
  }

  lemma InsertRefines<K, V>(cfg: CacheConfig, c: Cache<K, V>, items: seq<Item<K, V>>, t: nat, op: Op<K, V>)
    requires op.Insert? && Caches(cfg, op.expiresIn)
    requires CacheInv(cfg, c) && Related(c.entries, items, t) && t <= op.pruneAt <= op.storeAt
    ensures Related(CredentialCaching.Apply(cfg, c, op).0.entries, EagerApply(cfg, items, op).0, op.storeAt)
  {
    InsertUnfolds(cfg, c, items, op);
    StoreRefines(cfg, c, items, t, op.key, op.value, Ttl(cfg, op.expiresIn), op.pruneAt, op.storeAt);
  }

  lemma ApplyRefines<K, V>(cfg: CacheConfig, c: Cache<K, V>, items: seq<Item<K, V>>, t: nat, op: Op<K, V>)
    requires CacheInv(cfg, c) && Related(c.entries, items, t) && t <= StartTime(op) <= EndTime(op)
    ensures CredentialCaching.Apply(cfg, c, op).1 == EagerApply(cfg, items, op).1
    ensures Related(CredentialCaching.Apply(cfg, c, op).0.entries, EagerApply(cfg, items, op).0, EndTime(op))
  {
    match op
    case Get(key, now) => GetRefines(cfg, c, items, t, key, now);
    case Insert(_, _, expiresIn, _, storeAt) =>
      if Caches(cfg, expiresIn) {
        InsertRefines(cfg, c, items, t, op);
      } else {
        RelatedLater(c.entries, items, t, storeAt);
      }
    case Invalidate(key, now) => KeptIsRelated(c.entries, items, t, now, Some(key));
  }

  lemma {:induction false} HistoryRefines<K, V>(cfg: CacheConfig, ops: seq<Op<K, V>>)
    requires Monotone(ops) && |ops| < TWO_TO_THE_64
    ensures Related(StateAfter(cfg, ops).entries, EagerAfter(cfg, ops), LastTime(ops))
    ensures Answers(cfg, ops) == EagerAnswers(cfg, ops)
  {
    if ops != [] {
      var front := ops[..|ops| - 1];
      HistoryRefines(cfg, front);
      HistoryKeepsInv(cfg, front);
      ApplyRefines(cfg, StateAfter(cfg, front), EagerAfter(cfg, front), LastTime(front), ops[|ops| - 1]);
    }
  }

  /** Lazy pruning is invisible: every history of fewer than 2^64 operations with a monotone clock is
      answered like the eager list answers it. */
  lemma LazyPruningIsInvisible<K, V>(cfg: CacheConfig, ops: seq<Op<K, V>>)
    requires Monotone(ops) && |ops| < TWO_TO_THE_64
    ensures Answers(cfg, ops) == EagerAnswers(cfg, ops)
  {
    HistoryRefines(cfg, ops);
  }
}
