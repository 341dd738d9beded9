/**
 When recency survives concurrency. A call draws its tick first and takes the lock later, so the last use of
 an entry may go back; here is exactly when it does, and the LRU guarantee of every interleaving in which it
 does not.
 */
module SharedRecency {
  import opened Wrappers
  import opened CredentialCaching
  import opened CacheHistory
  import opened SharedCaching
  import CacheRecency

  /** The key a locked section uses, a hit or a store, with its tick. */
  ghost function UseOf<K, V>(s: Shared<K, V>, e: Event<K, V>): Option<(K, nat)> {
    match e
    case DrawTick => None
    case RunGet(key, tick, now) => if Lookup(s.entries, key, tick, now).1.Some? then Some((key, tick)) else None
    case RunInsert(key, _, _, tick, _, _) => Some((key, tick))
    case RunInvalidate(_) => None
  }

  /** One event: the entry used carries the tick of the section, the others stay as they were or go. */
  lemma EventUses<K, V>(cfg: CacheConfig, s: Shared<K, V>, e: Event<K, V>, k: K)
    requires SharedInv(cfg, s) && Legal(cfg, s, e) && k in Occur(cfg, s, e).entries
    ensures var entry := Occur(cfg, s, e).entries[k];
            match UseOf(s, e)
            case Some((key, tick)) =>
              if key == k then entry.lastUsed == tick else k in s.entries && entry == s.entries[k]
            case None => k in s.entries && entry == s.entries[k]
  {
    if e.RunInsert? {
      MadeRoom(cfg, s.entries, e.key, e.pruneAt);
    }
  }

  /** The last use of an entry goes back exactly if a section uses it whose tick was drawn before that of its
      last use. */
  lemma LastUseFallsIff<K, V>(cfg: CacheConfig, s: Shared<K, V>, e: Event<K, V>, k: K)
    requires SharedInv(cfg, s) && Legal(cfg, s, e) && k in s.entries && k in Occur(cfg, s, e).entries
    ensures Occur(cfg, s, e).entries[k].lastUsed < s.entries[k].lastUsed <==>
            exists tick: nat :: UseOf(s, e) == Some((k, tick)) && tick < s.entries[k].lastUsed
  {
    EventUses(cfg, s, e, k);
  }

  // ---------- histories of an interleaving ----------

  /** The history consists of legal events. */
  ghost predicate IsHistory<K, V>(cfg: CacheConfig, events: seq<Event<K, V>>)
    decreases |events|, 0
  {
    events == [] ||
    (IsHistory(cfg, events[..|events| - 1]) && Legal(cfg, After(cfg, events[..|events| - 1]), events[|events| - 1]))
  }

  /** The cache after it, from empty. */
  ghost function After<K, V>(cfg: CacheConfig, events: seq<Event<K, V>>): Shared<K, V>
    requires IsHistory(cfg, events)
    decreases |events|, 1
  {
    if events == [] then Empty()
    else Occur(cfg, After(cfg, events[..|events| - 1]), events[|events| - 1])
  }

  lemma {:induction false} HistoryKeepsInv<K, V>(cfg: CacheConfig, events: seq<Event<K, V>>)
    requires IsHistory(cfg, events)
    ensures SharedInv(cfg, After(cfg, events))
  {
    if events != [] {
      HistoryKeepsInv(cfg, events[..|events| - 1]);
      EventKeepsInv(cfg, After(cfg, events[..|events| - 1]), events[|events| - 1]);
    }
  }

  /** Every state of every interleaving has one. */
  lemma {:induction false} RunHasHistory<K(!new), V(!new)>(cfg: CacheConfig, run: seq<Shared<K, V>>, i: nat)
    returns (events: seq<Event<K, V>>)
    requires SharedCaching.IsRun(cfg, run) && i < |run|
    ensures |events| == i && IsHistory(cfg, events) && After(cfg, events) == run[i]
  {
    events := [];
    if i > 0 {
      var front := RunHasHistory(cfg, run, i - 1);
      assert Follows(cfg, run[i - 1], run[i - 1 + 1]);
      var e: Event<K, V> :| Legal(cfg, run[i - 1], e) && run[i] == Occur(cfg, run[i - 1], e);
      events := front + [e];
      assert events[..i - 1] == front;
    }
  }

  /** What the last event of a history uses. */
  ghost function LastUseOf<K, V>(cfg: CacheConfig, events: seq<Event<K, V>>): Option<(K, nat)>
    requires IsHistory(cfg, events) && events != []
  {
    UseOf(After(cfg, events[..|events| - 1]), events[|events| - 1])
  }

  /** Every section that uses an entry has a later tick than every entry there is. */
  ghost predicate InTickOrder<K, V>(cfg: CacheConfig, events: seq<Event<K, V>>)
    requires IsHistory(cfg, events)
  {
    events == [] ||
    (InTickOrder(cfg, events[..|events| - 1])
     && (LastUseOf(cfg, events).Some? ==>
           AllBefore(After(cfg, events[..|events| - 1]).entries, LastUseOf(cfg, events).value.1)))
  }

  ghost predicate AllBefore<K, V>(entries: Entries<K, V>, tick: nat) {
    forall k :: k in entries ==> entries[k].lastUsed < tick
  }

  /** The tick an event's section holds. */
  function TickOf<K, V>(e: Event<K, V>): Option<nat> {
    match e
    case RunGet(_, tick, _) => Some(tick)
    case RunInsert(_, _, _, tick, _, _) => Some(tick)
    case _ => None
  }

  /** Sections take the lock in the order in which they drew their ticks. */
  predicate LockedInDrawOrder<K, V>(events: seq<Event<K, V>>) {
    forall i, j :: 0 <= i < j < |events| && TickOf(events[i]).Some? && TickOf(events[j]).Some? ==>
      TickOf(events[i]).value < TickOf(events[j]).value
  }

  lemma {:induction false} UsesAreTicks<K, V>(cfg: CacheConfig, events: seq<Event<K, V>>, tick: nat)
    requires IsHistory(cfg, events)
    requires forall i :: 0 <= i < |events| && TickOf(events[i]).Some? ==> TickOf(events[i]).value < tick
    ensures AllBefore(After(cfg, events).entries, tick)
  {
    if events != [] {
      var front := events[..|events| - 1];
      UsesAreTicks(cfg, front, tick);
      HistoryKeepsInv(cfg, front);
      forall k | k in After(cfg, events).entries ensures After(cfg, events).entries[k].lastUsed < tick {
        EventUses(cfg, After(cfg, front), events[|events| - 1], k);
      }
    }
  }

  /** It is enough that the lock is taken in the order of the draws, as in a sequential history. */
  lemma {:induction false} DrawOrderIsTickOrder<K, V>(cfg: CacheConfig, events: seq<Event<K, V>>)
    requires IsHistory(cfg, events) && LockedInDrawOrder(events)
    ensures InTickOrder(cfg, events)
  {
    if events != [] {
      var n := |events| - 1;
      DrawOrderIsTickOrder(cfg, events[..n]);
      if LastUseOf(cfg, events).Some? {
        UsesAreTicks(cfg, events[..n], LastUseOf(cfg, events).value.1);
      }
    }
  }

  /** In tick order, no last use ever goes back. */
  lemma LastUsesNeverFall<K, V>(cfg: CacheConfig, events: seq<Event<K, V>>, k: K)
    requires IsHistory(cfg, events) && events != [] && InTickOrder(cfg, events)
    requires k in After(cfg, events[..|events| - 1]).entries && k in After(cfg, events).entries
    ensures After(cfg, events[..|events| - 1]).entries[k].lastUsed <= After(cfg, events).entries[k].lastUsed
  {
    HistoryKeepsInv(cfg, events[..|events| - 1]);
    LastUseFallsIff(cfg, After(cfg, events[..|events| - 1]), events[|events| - 1], k);
  }

  // ---------- the LRU guarantee ----------

  /** How many events there are up to the last that used the key. */
  ghost function UsedLast<K, V>(cfg: CacheConfig, events: seq<Event<K, V>>, k: K): (i: nat)
    requires IsHistory(cfg, events)
    ensures i <= |events|
  {
    if events == [] then 0
    else if LastUseOf(cfg, events).Some? && LastUseOf(cfg, events).value.0 == k then |events|
    else UsedLast(cfg, events[..|events| - 1], k)
  }

  /** The keys used by event `i` and later. */
  ghost function UsedSince<K, V>(cfg: CacheConfig, events: seq<Event<K, V>>, i: nat): set<K>
    requires IsHistory(cfg, events)
  {
    if |events| <= i then {}
    else
      UsedSince(cfg, events[..|events| - 1], i)
      + (match LastUseOf(cfg, events) case Some((k, _)) => {k} case None => {})
  }

  lemma {:induction false} UsedSinceIff<K, V>(cfg: CacheConfig, events: seq<Event<K, V>>, i: nat, k: K)
    requires IsHistory(cfg, events)
    ensures k in UsedSince(cfg, events, i) <==> i < UsedLast(cfg, events, k)
  {
    if i < |events| {
      UsedSinceIff(cfg, events[..|events| - 1], i, k);
    }
  }

  /** In tick order, a later tick means a later use. */
  lemma {:induction false} LaterTickIsLaterUse<K, V>(cfg: CacheConfig, events: seq<Event<K, V>>, k: K, other: K)
    requires IsHistory(cfg, events) && InTickOrder(cfg, events)
    requires k in After(cfg, events).entries && other in After(cfg, events).entries
    requires After(cfg, events).entries[k].lastUsed < After(cfg, events).entries[other].lastUsed
    ensures UsedLast(cfg, events, k) < UsedLast(cfg, events, other)
  {
    var front, last := events[..|events| - 1], events[|events| - 1];
    HistoryKeepsInv(cfg, front);
    EventUses(cfg, After(cfg, front), last, k);
    EventUses(cfg, After(cfg, front), last, other);
    var use := LastUseOf(cfg, events);
    if use.None? || use.value.0 != other {
      if use.None? || use.value.0 != k {
        LaterTickIsLaterUse(cfg, front, k, other);
      }
    }
  }

  /** A section that evicts an unexpired entry keeps the others, one fewer than the maximum, each used later. */
  lemma SectionKeepsTheRecent<K, V>(cfg: CacheConfig, s: Shared<K, V>, e: Event<K, V>, k: K)
    requires SharedInv(cfg, s) && Legal(cfg, s, e) && e.RunInsert?
    requires k in s.entries && e.pruneAt < s.entries[k].expiresAt && k !in Occur(cfg, s, e).entries
    ensures e.key !in s.entries
    ensures var kept := Retained(s.entries, e.pruneAt).Keys - {k};
            && |kept| == cfg.maxEntries - 1
            && forall other :: other in kept ==> s.entries[k].lastUsed < s.entries[other].lastUsed
  {
    var op := Op.Insert(e.key, e.value, Some(e.ttl + cfg.refreshMargin), e.pruneAt, e.storeAt);
    CacheRecency.EvictionKeepsTheRecent(cfg, Cache(s.entries, s.clock), op, k);
  }

  /** The LRU guarantee of `CacheRecency`, for every interleaving in tick order: an entry that has not expired
      is evicted only after the insertions and hits of at least `maxEntries` other keys since its own last
      use, the key being inserted among them. */
  lemma EvictionNeedsOtherUses<K, V>(cfg: CacheConfig, events: seq<Event<K, V>>, k: K)
    requires IsHistory(cfg, events) && events != [] && InTickOrder(cfg, events)
    requires var s, e := After(cfg, events[..|events| - 1]), events[|events| - 1];
             e.RunInsert? && k in s.entries && e.pruneAt < s.entries[k].expiresAt
    requires k !in After(cfg, events).entries
    ensures var used := UsedSince(cfg, events, UsedLast(cfg, events, k));
            k !in used && |used| >= cfg.maxEntries
  {
    var front, e := events[..|events| - 1], events[|events| - 1];
    var s := After(cfg, front);
    HistoryKeepsInv(cfg, front);
    SectionKeepsTheRecent(cfg, s, e, k);
    var kept, used := Retained(s.entries, e.pruneAt).Keys - {k}, UsedSince(cfg, events, UsedLast(cfg, events, k));
    forall other | other in kept + {e.key} ensures other in used {
      if other in kept {
        LaterTickIsLaterUse(cfg, front, k, other);
      }
      UsedSinceIff(cfg, events, UsedLast(cfg, events, k), other);
    }
    UsedSinceIff(cfg, events, UsedLast(cfg, events, k), k);
    SubsetIsNoLarger(kept + {e.key}, used);
  }
}
