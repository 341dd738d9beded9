/** The LRU guarantee: what must have happened since the last use of an entry that eviction removes. */
module CacheRecency {
  import opened Wrappers
  import opened CredentialCaching
  import opened CacheHistory

  /** The key an operation effectively uses: a hit, or an insert that is not refused. */
  ghost function UsedBy<K, V>(cfg: CacheConfig, c: Cache<K, V>, op: Op<K, V>): Option<K> {
    match op
    case Get(key, now) => if Lookup(c.entries, key, c.clock, now).1.Some? then Some(key) else None
    case Insert(key, _, expiresIn, _, _) => if Caches(cfg, expiresIn) then Some(key) else None
    case Invalidate(_, _) => None
  }

  /** The key used by operation `i` of a history. */
  ghost function UsedAt<K, V>(cfg: CacheConfig, ops: seq<Op<K, V>>, i: nat): Option<K>
    requires i < |ops|
  {
    UsedBy(cfg, StateAfter(cfg, ops[..i]), ops[i])
  }

  /** The keys used by operation `i` and later. */
  ghost function UsedFrom<K, V>(cfg: CacheConfig, ops: seq<Op<K, V>>, i: nat): set<K> {
    if |ops| <= i then {}
    else
      var n := |ops| - 1;
      UsedFrom(cfg, ops[..n], i) + (match UsedAt(cfg, ops, n) case Some(k) => {k} case None => {})
  }

  lemma {:induction false} UsesAreInUsedFrom<K, V>(cfg: CacheConfig, ops: seq<Op<K, V>>, i: nat, j: nat)
    requires i <= j < |ops| && UsedAt(cfg, ops, j).Some?
    ensures UsedAt(cfg, ops, j).value in UsedFrom(cfg, ops, i)
  {
    var n := |ops| - 1;
    if j < n {
      assert ops[..n][..j] == ops[..j];
      UsesAreInUsedFrom(cfg, ops[..n], i, j);
    }
  }

  /** Operation `i` was the last to use `k`, and drew the tick the entry carries. */
  ghost predicate LastUse<K, V>(cfg: CacheConfig, ops: seq<Op<K, V>>, k: K, i: nat) {
    && i < |ops| && UsedAt(cfg, ops, i) == Some(k) && k !in UsedFrom(cfg, ops, i + 1)
    && k in StateAfter(cfg, ops).entries
    && StateAfter(cfg, ops).entries[k].lastUsed == StateAfter(cfg, ops[..i]).clock
  }

  lemma ClockStep<K, V>(cfg: CacheConfig, c: Cache<K, V>, op: Op<K, V>)
    requires c.clock + 1 < TWO_TO_THE_64
    ensures c.clock <= CredentialCaching.Apply(cfg, c, op).0.clock
    ensures UsedBy(cfg, c, op).Some? ==> c.clock < CredentialCaching.Apply(cfg, c, op).0.clock
  {
  }

  lemma LastOperationTicks<K, V>(cfg: CacheConfig, ops: seq<Op<K, V>>)
    requires ops != [] && |ops| < TWO_TO_THE_64
    ensures var n := |ops| - 1;
            && StateAfter(cfg, ops[..n]).clock <= StateAfter(cfg, ops).clock
            && (UsedAt(cfg, ops, n).Some? ==> StateAfter(cfg, ops[..n]).clock < StateAfter(cfg, ops).clock)
  {
    HistoryKeepsInv(cfg, ops[..|ops| - 1]);
    ClockStep(cfg, StateAfter(cfg, ops[..|ops| - 1]), ops[|ops| - 1]);
  }

  /** Ticks grow with time, by one for each use. */
  lemma {:induction false} ClockGrows<K, V>(cfg: CacheConfig, ops: seq<Op<K, V>>, i: nat)
    requires i < |ops| < TWO_TO_THE_64
    ensures StateAfter(cfg, ops[..i]).clock <= StateAfter(cfg, ops).clock
    ensures UsedAt(cfg, ops, i).Some? ==> StateAfter(cfg, ops[..i]).clock < StateAfter(cfg, ops).clock
  {
    var n := |ops| - 1;
    LastOperationTicks(cfg, ops);
    if i < n {
      assert ops[..n][..i] == ops[..i];
      assert UsedAt(cfg, ops[..n], i) == UsedAt(cfg, ops, i);
      ClockGrows(cfg, ops[..n], i);
    }
  }

  /** An entry that an operation leaves alone keeps its last use. */
  lemma UntouchedKeeps<K, V>(cfg: CacheConfig, c: Cache<K, V>, op: Op<K, V>, k: K)
    requires CacheInv(cfg, c)
    requires k in CredentialCaching.Apply(cfg, c, op).0.entries && UsedBy(cfg, c, op) != Some(k)
    ensures k in c.entries && CredentialCaching.Apply(cfg, c, op).0.entries[k] == c.entries[k]
  {
    if op.Insert? && Caches(cfg, op.expiresIn) {
      MadeRoom(cfg, c.entries, op.key, op.pruneAt);
    }
  }

  lemma UseStampsTick<K, V>(cfg: CacheConfig, c: Cache<K, V>, op: Op<K, V>, k: K)
    requires UsedBy(cfg, c, op) == Some(k)
    ensures k in CredentialCaching.Apply(cfg, c, op).0.entries
    ensures CredentialCaching.Apply(cfg, c, op).0.entries[k].lastUsed == c.clock
  {
  }

  /** Every entry carries the tick of the last operation that used it. */
  lemma {:induction false} EveryEntryWasUsed<K, V>(cfg: CacheConfig, ops: seq<Op<K, V>>, k: K) returns (i: nat)
    requires |ops| < TWO_TO_THE_64 && k in StateAfter(cfg, ops).entries
    ensures LastUse(cfg, ops, k, i)
  {
    var n := |ops| - 1;
    var before := StateAfter(cfg, ops[..n]);
    if UsedBy(cfg, before, ops[n]) == Some(k) {
      i := n;
      UseStampsTick(cfg, before, ops[n], k);
      assert ops[..n + 1] == ops;
    } else {
      HistoryKeepsInv(cfg, ops[..n]);
      UntouchedKeeps(cfg, before, ops[n], k);
      i := EveryEntryWasUsed(cfg, ops[..n], k);
      assert ops[..n][..i] == ops[..i];
    }
  }

  /** A later tick means a later use. */
  lemma LaterTickIsLaterUse<K, V>(cfg: CacheConfig, ops: seq<Op<K, V>>, k: K, i: nat, other: K)
    requires |ops| < TWO_TO_THE_64 && LastUse(cfg, ops, k, i)
    requires other in StateAfter(cfg, ops).entries
    requires StateAfter(cfg, ops).entries[k].lastUsed < StateAfter(cfg, ops).entries[other].lastUsed
    ensures other in UsedFrom(cfg, ops, i + 1)
  {
    var j := EveryEntryWasUsed(cfg, ops, other);
    if j < i {
      assert ops[..i][..j] == ops[..j];
      ClockGrows(cfg, ops[..i], j);
    }
    UsesAreInUsedFrom(cfg, ops, i + 1, j);
  }

  /** An insert that evicts an unexpired entry keeps the others, one fewer than the maximum, each used later. */
  lemma EvictionKeepsTheRecent<K, V>(cfg: CacheConfig, c: Cache<K, V>, op: Op<K, V>, k: K)
    requires CacheInv(cfg, c) && op.Insert?
    requires k in c.entries && op.pruneAt < c.entries[k].expiresAt
    requires k !in CredentialCaching.Apply(cfg, c, op).0.entries
    ensures Caches(cfg, op.expiresIn) && op.key !in c.entries
    ensures var kept := Retained(c.entries, op.pruneAt).Keys - {k};
            |kept| == cfg.maxEntries - 1 && forall other :: other in kept ==>
                c.entries[k].lastUsed < c.entries[other].lastUsed
  {
    var live := Retained(c.entries, op.pruneAt);
    RetainedIsNoLarger(c.entries, op.pruneAt);
    EvictedOnce(live, cfg.maxEntries);
    assert k in live && k !in Evicted(live, cfg.maxEntries);
    assert IsColdest(live, k);
  }

  /** An entry that has not expired is evicted only after the insertions and hits of at least
      `maxEntries` other keys since its own last use, the key being inserted among them. */
  lemma EvictionNeedsOtherUses<K, V>(cfg: CacheConfig, ops: seq<Op<K, V>>, k: K) returns (i: nat)
    requires ops != [] && |ops| < TWO_TO_THE_64
    requires var before, op := StateAfter(cfg, ops[..|ops| - 1]), ops[|ops| - 1];
             op.Insert? && k in before.entries && op.pruneAt < before.entries[k].expiresAt
    requires k !in StateAfter(cfg, ops).entries
    ensures i < |ops| - 1 && UsedAt(cfg, ops, i) == Some(k) && k !in UsedFrom(cfg, ops, i + 1)
    ensures |UsedFrom(cfg, ops, i + 1)| >= cfg.maxEntries
  {
    var n := |ops| - 1;
    var front, op := ops[..n], ops[n];
    var before := StateAfter(cfg, front);
    HistoryKeepsInv(cfg, front);
    EvictionKeepsTheRecent(cfg, before, op, k);
    i := EveryEntryWasUsed(cfg, front, k);
    assert front[..i] == ops[..i];
    var kept := Retained(before.entries, op.pruneAt).Keys - {k};
    forall other | other in kept ensures other in UsedFrom(cfg, front, i + 1) {
      LaterTickIsLaterUse(cfg, front, k, i, other);
    }
    assert UsedAt(cfg, ops, n) == Some(op.key);
    assert op.key !in kept;
    SubsetIsNoLarger(kept + {op.key}, UsedFrom(cfg, ops, i + 1));
  }
}
