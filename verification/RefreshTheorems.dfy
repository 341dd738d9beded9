/** What every run of the refresh protocol keeps: single flight, debounce, delivery, progress, and
    verification against a snapshot that was current while the call ran. */
module RefreshTheorems {
  import opened Wrappers
  import opened RefreshProtocol

  lemma {:induction false} RunKeepsInv<K(!new), T(!new)>(c: Config<K, T>, run: seq<State<K, T>>, i: nat)
    requires IsRun(c, run) && i < |run|
    ensures Inv(c, run[i])
  {
    if i > 0 {
      RunKeepsInv(c, run, i - 1);
      assert Next(c, run[i - 1], run[i - 1 + 1]);
      var step :| Enabled(c, run[i - 1], step) && run[i] == Apply(c, run[i - 1], step);
      StepKeepsInv(c, run[i - 1], step);
    }
  }

  /** The step that leads to `run[i + 1]`, with the invariant before it. */
  lemma StepAt<K(!new), T(!new)>(c: Config<K, T>, run: seq<State<K, T>>, i: nat) returns (step: Step<K, T>)
    requires IsRun(c, run) && i + 1 < |run|
    ensures Inv(c, run[i]) && Inv(c, run[i + 1]) && Extends(run[i], run[i + 1])
    ensures Enabled(c, run[i], step) && run[i + 1] == Apply(c, run[i], step)
  {
    RunKeepsInv(c, run, i);
    assert Next(c, run[i], run[i + 1]);
    step :| Enabled(c, run[i], step) && run[i + 1] == Apply(c, run[i], step);
    StepKeepsInv(c, run[i], step);
  }

  /** The step that leads to `run[i]`, and nothing else about it. */
  lemma StepBefore<K(!new), T(!new)>(c: Config<K, T>, run: seq<State<K, T>>, i: nat) returns (step: Step<K, T>)
    requires IsRun(c, run) && 0 < i < |run|
    ensures Enabled(c, run[i - 1], step) && run[i] == Apply(c, run[i - 1], step)
  {
    assert Next(c, run[i - 1], run[i - 1 + 1]);
    step :| Enabled(c, run[i - 1], step) && run[i] == Apply(c, run[i - 1], step);
  }

  lemma StepExtends<K(!new), T(!new)>(c: Config<K, T>, run: seq<State<K, T>>, i: nat)
    requires IsRun(c, run) && i + 1 < |run|
    ensures Extends(run[i], run[i + 1]) && |run[i].tasks| <= |run[i + 1].tasks|
  {
  }

  lemma {:induction false} RunExtends<K(!new), T(!new)>(c: Config<K, T>, run: seq<State<K, T>>, i: nat, j: nat)
    requires IsRun(c, run) && i <= j < |run|
    ensures Extends(run[i], run[j]) && |run[i].tasks| <= |run[j].tasks|
  {
    if i < j {
      RunExtends(c, run, i, j - 1);
      StepExtends(c, run, j - 1);
    }
  }

  // ---------- single flight ----------

  ghost predicate InFlight<K, T>(s: State<K, T>, t: nat) {
    t < |s.tasks| && s.tasks[t].pc.Fetching?
  }

  lemma SingleFlight<K(!new), T(!new)>(c: Config<K, T>, run: seq<State<K, T>>, i: nat, t: nat, u: nat)
    requires IsRun(c, run) && i < |run|
    requires InFlight(run[i], t) && InFlight(run[i], u)
    ensures t == u && run[i].lock == Some(t)
  {
    RunKeepsInv(c, run, i);
    assert HoldsLock(run[i].tasks[t].pc) && HoldsLock(run[i].tasks[u].pc);
  }

  /** `t` is the call whose section changed the stored snapshot. */
  ghost predicate Publishes<K, T>(s: State<K, T>, s': State<K, T>, t: nat) {
    s'.published != s.published && t < |s.tasks| && t < |s'.tasks| && s.tasks[t].pc.Fetched? && s'.tasks[t].pc.Unlock?
  }

  /** The stored snapshot changes only in the hands of the mutex holder, which fetched the new one
      after seeing the very snapshot it replaces. */
  lemma OnlyTheHolderPublishes<K(!new), T(!new)>(c: Config<K, T>, run: seq<State<K, T>>, i: nat) returns (t: nat)
    requires IsRun(c, run) && i + 1 < |run|
    requires run[i + 1].published != run[i].published
    ensures Publishes(run[i], run[i + 1], t) && run[i].lock == Some(t)
    ensures run[i].published != [] && run[i].tasks[t].observed == Some(run[i].Current())
    ensures run[i + 1].published ==
            run[i].published + [Snapshot(|run[i].published|, run[i].tasks[t].pc.at, run[i].tasks[t].pc.keys)]
    ensures run[i].Current().fetchedAt + c.interval <= run[i].tasks[t].pc.at
  {
    var step := StepAt(c, run, i);
    t := step.t;
    var task := run[i].tasks[t];
    assert TaskInv(c, run[i], task);
    if step.Poll? {
      AdvanceUsesLock(c, task, run[i].Current(), run[i].now, step.fetch);
    }
    assert step.Poll? && task.pc.Fetched?;
  }

  /** Among the calls that observed one snapshot, at most one replaces it. */
  lemma OneSuccessorPerObservation<K(!new), T(!new)>(
    c: Config<K, T>, run: seq<State<K, T>>, i: nat, j: nat, t: nat, u: nat)
    requires IsRun(c, run) && i < j && j + 1 < |run|
    requires Publishes(run[i], run[i + 1], t) && Publishes(run[j], run[j + 1], u)
    ensures run[i].tasks[t].observed.Some? && run[j].tasks[u].observed.Some?
    ensures run[i].tasks[t].observed.value.gen < run[j].tasks[u].observed.value.gen
  {
    RunKeepsInv(c, run, i);
    RunKeepsInv(c, run, j);
    assert TaskInv(c, run[i], run[i].tasks[t]) && TaskInv(c, run[j], run[j].tasks[u]);
    var v := OnlyTheHolderPublishes(c, run, i);
    RunExtends(c, run, i + 1, j);
  }

  // ---------- debounce ----------

  /** The length of n intervals. */
  function Intervals<K, T>(c: Config<K, T>, n: nat): nat {
    if n == 0 then 0 else Intervals(c, n - 1) + c.interval
  }

  lemma {:induction false} IntervalsAreProduct<K, T>(c: Config<K, T>, n: nat)
    ensures Intervals(c, n) == n * c.interval
  {
    if n > 0 {
      IntervalsAreProduct(c, n - 1);
      assert n * c.interval == (n - 1) * c.interval + c.interval;
    }
  }

  /** Fetches are a full interval apart, so many refreshes need much time. */
  lemma {:induction false} Spacing<K, T>(c: Config<K, T>, s: State<K, T>, i: nat, j: nat)
    requires PublishedInv(c, s) && i <= j < |s.published|
    ensures s.published[i].fetchedAt + Intervals(c, j - i) <= s.published[j].fetchedAt
  {
    if i < j {
      Spacing(c, s, i, j - 1);
      assert s.published[j - 1].fetchedAt + c.interval <= s.published[j].fetchedAt;
    }
  }

  /** Between two states of a run, n refreshes move the newest fetch time by at least n intervals. */
  lemma RefreshesTakeTime<K(!new), T(!new)>(c: Config<K, T>, run: seq<State<K, T>>, i: nat, j: nat)
    requires IsRun(c, run) && i <= j < |run|
    ensures run[i].published != [] && run[j].published != []
    ensures run[i].Current().fetchedAt + (|run[j].published| - |run[i].published|) * c.interval
        <= run[j].Current().fetchedAt <= run[j].now
  {
    RunKeepsInv(c, run, i);
    RunKeepsInv(c, run, j);
    RunExtends(c, run, i, j);
    Spacing(c, run[j], |run[i].published| - 1, |run[j].published| - 1);
    IntervalsAreProduct(c, |run[j].published| - |run[i].published|);
  }

  /** How many of the first `n` snapshots were fetched from `lo` to `hi`. */
  function FetchesIn<K>(snaps: seq<Snapshot<K>>, n: nat, lo: nat, hi: nat): nat
    requires n <= |snaps|
  {
    if n == 0 then 0
    else FetchesIn(snaps, n - 1, lo, hi) + if lo <= snaps[n - 1].fetchedAt <= hi then 1 else 0
  }

  /** The latest of k fetches in a window lies k - 1 intervals after its start. */
  ghost predicate LatestAt<K, T>(c: Config<K, T>, snaps: seq<Snapshot<K>>, k: nat, m: nat, lo: nat, hi: nat) {
    m < |snaps| && lo + Intervals(c, k) <= snaps[m].fetchedAt + c.interval && snaps[m].fetchedAt <= hi
  }

  lemma {:induction false} LatestFetchIn<K, T>(c: Config<K, T>, s: State<K, T>, n: nat, lo: nat, hi: nat)
    returns (m: nat)
    requires PublishedInv(c, s) && n <= |s.published|
    ensures var k := FetchesIn(s.published, n, lo, hi);
            k > 0 ==> m < n && LatestAt(c, s.published, k, m, lo, hi)
  {
    m := 0;
    if n > 0 {
      m := LatestFetchIn(c, s, n - 1, lo, hi);
      m := LatestStep(c, s, n - 1, lo, hi, FetchesIn(s.published, n - 1, lo, hi), m);
    }
  }

  lemma LatestStep<K, T>(c: Config<K, T>, s: State<K, T>, n: nat, lo: nat, hi: nat, k: nat, m: nat) returns (m': nat)
    requires PublishedInv(c, s) && n < |s.published|
    requires k > 0 ==> m < n && LatestAt(c, s.published, k, m, lo, hi)
    ensures var k' := k + if lo <= s.published[n].fetchedAt <= hi then 1 else 0;
            k' > 0 ==> m' < n + 1 && LatestAt(c, s.published, k', m', lo, hi)
  {
    m' := m;
    if lo <= s.published[n].fetchedAt <= hi {
      m' := n;
      if k > 0 {
        OneMoreFetch(c, s, k, m, n, lo, hi);
      }
    }
  }

  lemma OneMoreFetch<K, T>(c: Config<K, T>, s: State<K, T>, k: nat, m: nat, n: nat, lo: nat, hi: nat)
    requires PublishedInv(c, s) && m < n < |s.published|
    requires LatestAt(c, s.published, k, m, lo, hi) && s.published[n].fetchedAt <= hi
    ensures LatestAt(c, s.published, k + 1, n, lo, hi)
  {
    Spacing(c, s, m, n);
    assert Intervals(c, n - m) == Intervals(c, n - m - 1) + c.interval;
  }

  lemma MulIsMonotone(x: nat, y: nat, b: nat)
    ensures x <= y ==> x * b <= y * b
  {
  }

  lemma QuotientBound(a: nat, b: nat, w: nat)
    requires b > 0 && a * b <= w
    ensures a <= w / b
  {
    assert w < (w / b + 1) * b;
    MulIsMonotone(w / b + 1, a, b);
  }

  /** In any state of any run, a window of length `hi - lo` holds at most one fetch per interval, and one more. */
  lemma WindowBound<K(!new), T(!new)>(c: Config<K, T>, run: seq<State<K, T>>, i: nat, lo: nat, hi: nat)
    requires IsRun(c, run) && i < |run|
    requires c.interval > 0 && lo <= hi
    ensures FetchesIn(run[i].published, |run[i].published|, lo, hi) <= (hi - lo) / c.interval + 1
  {
    RunKeepsInv(c, run, i);
    WindowBoundIn(c, run[i], lo, hi);
  }

  lemma WindowBoundIn<K, T>(c: Config<K, T>, s: State<K, T>, lo: nat, hi: nat)
    requires PublishedInv(c, s) && c.interval > 0 && lo <= hi
    ensures FetchesIn(s.published, |s.published|, lo, hi) <= (hi - lo) / c.interval + 1
  {
    var m := LatestFetchIn(c, s, |s.published|, lo, hi);
    var k := FetchesIn(s.published, |s.published|, lo, hi);
    if k > 0 {
      IntervalsAreProduct(c, k - 1);
      QuotientBound(k - 1, c.interval, hi - lo);
    }
  }

  /** A fetch starts only when the stored snapshot is at least an interval old, and it is the snapshot
      the call observed before waiting. */
  lemma NoEarlyFetch<K(!new), T(!new)>(c: Config<K, T>, run: seq<State<K, T>>, i: nat, t: nat)
    requires IsRun(c, run) && i + 1 < |run|
    requires !InFlight(run[i], t) && InFlight(run[i + 1], t)
    ensures run[i].published != [] && run[i + 1].tasks[t].observed == Some(run[i].Current())
    ensures run[i].Current().fetchedAt + c.interval <= run[i].now
  {
    var step := StepAt(c, run, i);
    assert TaskInv(c, run[i + 1], run[i + 1].tasks[t]);
    assert run[i + 1].tasks[t].pc.Fetching?;
    if step.Poll? {
      AdvanceUsesLock(c, run[i].tasks[step.t], run[i].Current(), run[i].now, step.fetch);
    }
    assert step.Poll? && step.t == t && run[i + 1].published == run[i].published;
  }

  /** Under the mutex the age test adds nothing: the double check is the identity test. */
  lemma DoubleCheckIsIdentity<K(!new), T(!new)>(c: Config<K, T>, run: seq<State<K, T>>, i: nat, t: nat)
    requires IsRun(c, run) && i < |run| && t < |run[i].tasks|
    requires run[i].tasks[t].pc.Recheck?
    ensures var task := run[i].tasks[t];
            (!SameSnapshot(task, task.pc.current) || Young(c, task.pc.current, run[i].now))
            <==> !SameSnapshot(task, task.pc.current)
  {
    RunKeepsInv(c, run, i);
    var task := run[i].tasks[t];
    assert TaskInv(c, run[i], task);
    if SameSnapshot(task, task.pc.current) {
      assert task.observed.value == run[i].Current();
    }
  }

  // ---------- what a call read, and when ----------

  /** The snapshot a call has verified with or is about to. */
  function SnapshotRead<K, T>(task: Task<K, T>): Option<Snapshot<K>> {
    match task.pc
    case FirstVerify(snap) => Some(snap)
    case SecondVerify(snap) => Some(snap)
    case Done(Verified(_, snap, _)) => Some(snap)
    case Done(Rejected(_, snap, _)) => Some(snap)
    case _ => None
  }

  /** `snap` was the stored snapshot at a moment when call `t` was in progress. */
  ghost predicate CurrentDuring<K, T>(run: seq<State<K, T>>, j: nat, t: nat, snap: Snapshot<K>) {
    exists k :: 0 <= k <= j && k < |run| && CurrentInCall(run[k], t, snap)
  }

  ghost predicate CurrentInCall<K, T>(s: State<K, T>, t: nat, snap: Snapshot<K>) {
    t < |s.tasks| && !s.tasks[t].pc.Done? && s.published != [] && s.Current() == snap
  }

  /** Every snapshot a call uses was the stored one at some instant of the call. */
  lemma {:induction false} ReadDuringCall<K(!new), T(!new)>(c: Config<K, T>, run: seq<State<K, T>>, j: nat, t: nat)
    requires IsRun(c, run) && j < |run| && t < |run[j].tasks|
    ensures SnapshotRead(run[j].tasks[t]).Some? ==> CurrentDuring(run, j, t, SnapshotRead(run[j].tasks[t]).value)
    ensures run[j].tasks[t].observed.Some? ==> CurrentDuring(run, j, t, run[j].tasks[t].observed.value)
  {
    if j > 0 {
      var s := run[j - 1];
      if t < |s.tasks| {
        ReadDuringCall(c, run, j - 1, t);
        StepReadsOrKeeps(c, run, j - 1, t);
        assert s.published != [] && !s.tasks[t].pc.Done? ==> CurrentInCall(run[j - 1], t, s.Current());
      } else {
        NewCallHasReadNothing(c, run, j - 1, t);
      }
    }
  }

  lemma StepReadsOrKeeps<K(!new), T(!new)>(c: Config<K, T>, run: seq<State<K, T>>, i: nat, t: nat)
    requires IsRun(c, run) && i + 1 < |run| && t < |run[i].tasks|
    ensures t < |run[i + 1].tasks| && run[i].published != []
    ensures var task, task' := run[i].tasks[t], run[i + 1].tasks[t];
            && (SnapshotRead(task').Some? ==>
                  SnapshotRead(task') == SnapshotRead(task)
                      || (SnapshotRead(task').value == run[i].Current() && !task.pc.Done?))
            && (task'.observed.Some? ==>
                  task'.observed == task.observed || (task'.observed.value == run[i].Current() && !task.pc.Done?))
  {
  }

  lemma NewCallHasReadNothing<K(!new), T(!new)>(c: Config<K, T>, run: seq<State<K, T>>, i: nat, t: nat)
    requires IsRun(c, run) && i + 1 < |run| && |run[i].tasks| <= t < |run[i + 1].tasks|
    ensures SnapshotRead(run[i + 1].tasks[t]) == None && run[i + 1].tasks[t].observed == None
  {
  }

  /** If `refresh` returned Ok, the snapshot it observed, stored while it ran, was younger than the
      interval when its age was read, or has been replaced since. */
  lemma RefreshDelivers<K(!new), T(!new)>(c: Config<K, T>, run: seq<State<K, T>>, i: nat, t: nat)
    requires IsRun(c, run) && i < |run| && t < |run[i].tasks|
    requires run[i].tasks[t].pc == Done(RefreshOk)
    ensures var task := run[i].tasks[t];
            && task.observed.Some? && CurrentDuring(run, i, t, task.observed.value)
            && (Young(c, task.observed.value, task.checkedAt) || task.observed.value.gen < |run[i].published| - 1)
  {
    RunKeepsInv(c, run, i);
    ReadDuringCall(c, run, i, t);
    assert TaskInv(c, run[i], run[i].tasks[t]);
  }

  /** Every accepted token was verified, under the caller's nonce rule, with keys stored at some
      instant of the call; the keys used last are at least as new as those that failed first. */
  lemma VerifiedAgainstCurrentKeys<K(!new), T(!new)>(c: Config<K, T>, run: seq<State<K, T>>, i: nat, t: nat)
    requires IsRun(c, run) && i < |run| && t < |run[i].tasks|
    requires run[i].tasks[t].pc.Done? && run[i].tasks[t].pc.outcome.Verified?
    ensures var task := run[i].tasks[t];
            var Verified(claims, used, at) := task.pc.outcome;
            && CurrentDuring(run, i, t, used) && at <= run[i].now
            && task.job.VerifyJob? && task.job.token.Some?
            && c.check(used.keys, task.job.token.value, at) == Ok(claims)
            && (task.job.rule.Matches? ==> claims.nonce == Some(task.job.rule.expected))
            && (task.job.rule.Present? ==> claims.nonce.Some?)
            && (task.attempts == 2 ==> task.failed.Some? && task.failed.value.0.gen <= used.gen)
  {
    RunKeepsInv(c, run, i);
    ReadDuringCall(c, run, i, t);
    assert TaskInv(c, run[i], run[i].tasks[t]);
  }

  /** And no token is refused in vain: with keys stored at some instant of the call either the check failed
      with the very error reported, or it passed and the nonce breaks the caller's rule. */
  lemma RefusedAgainstCurrentKeys<K(!new), T(!new)>(c: Config<K, T>, run: seq<State<K, T>>, i: nat, t: nat)
    requires IsRun(c, run) && i < |run| && t < |run[i].tasks|
    requires run[i].tasks[t].pc.Done? && run[i].tasks[t].pc.outcome.Rejected?
    ensures var task := run[i].tasks[t];
            var Rejected(error, used, at) := task.pc.outcome;
            && CurrentDuring(run, i, t, used) && at <= run[i].now
            && task.job.VerifyJob? && task.job.token.Some?
            && (match c.check(used.keys, task.job.token.value, at)
                case Err(e) => error == e
                case Ok(claims) =>
                  && error == InvalidNonce
                  && ((task.job.rule.Matches? && claims.nonce != Some(task.job.rule.expected))
                      || (task.job.rule.Present? && claims.nonce == None)))
  {
    RunKeepsInv(c, run, i);
    ReadDuringCall(c, run, i, t);
    assert TaskInv(c, run[i], run[i].tasks[t]);
  }

  /** What a first attempt leads to: to a refresh exactly if the check failed for want of a key, for a
      signature no key made or for an ambiguous key; otherwise to the answer. */
  lemma FirstAttemptLeadsTo<K(!new), T(!new)>(c: Config<K, T>, run: seq<State<K, T>>, i: nat, t: nat)
    requires IsRun(c, run) && i + 1 < |run| && t < |run[i].tasks|
    requires run[i].tasks[t].pc.FirstVerify? && |run[i + 1].tasks| > t && run[i + 1].tasks[t] != run[i].tasks[t]
    ensures run[i].tasks[t].job.VerifyJob? && run[i].tasks[t].job.token.Some?
    ensures var task, now, next := run[i].tasks[t], run[i].now, run[i + 1].tasks[t].pc;
            match c.check(task.pc.snap.keys, task.job.token.value, now)
            case Err(e) =>
              if e == NoMatchingKey || e == CryptoError || e == AmbiguousKeyId then next == Observe
              else next == Done(Rejected(e, task.pc.snap, now))
            case Ok(claims) =>
              next == if (task.job.rule.Matches? && claims.nonce != Some(task.job.rule.expected))
                         || (task.job.rule.Present? && claims.nonce == None)
                      then Done(Rejected(InvalidNonce, task.pc.snap, now))
                      else Done(Verified(claims, task.pc.snap, now))
  {
    var step := StepAt(c, run, i);
    assert TaskInv(c, run[i], run[i].tasks[t]);
    assert step.Poll? && step.t == t;
  }

  /** A refresh is debounced exactly if less than an interval has passed since the fetch of the snapshot it
      observed. */
  lemma DebouncedIff<K(!new), T(!new)>(c: Config<K, T>, run: seq<State<K, T>>, i: nat, t: nat)
    requires IsRun(c, run) && i + 1 < |run| && t < |run[i].tasks|
    requires run[i].tasks[t].pc.AgeCheck? && |run[i + 1].tasks| > t && run[i + 1].tasks[t] != run[i].tasks[t]
    ensures run[i].tasks[t].observed.Some?
    ensures run[i + 1].tasks[t].pc == AwaitLock <==> run[i].tasks[t].observed.value.fetchedAt + c.interval <= run[i].now
  {
    var step := StepAt(c, run, i);
    assert TaskInv(c, run[i], run[i].tasks[t]);
    assert step.Poll? && step.t == t;
  }

  /** At most two attempts and one refresh, and a refresh only after a failure fresh keys could cure. */
  lemma RetriesAreBounded<K(!new), T(!new)>(c: Config<K, T>, run: seq<State<K, T>>, i: nat, t: nat)
    requires IsRun(c, run) && i < |run| && t < |run[i].tasks|
    ensures var task := run[i].tasks[t];
            && task.attempts <= 2 && task.refreshes <= 1
            && (task.attempts == 2 ==> task.refreshes == 1)
            && (task.job.VerifyJob? && task.refreshes == 1 ==>
                 task.failed.Some? && task.failed.value.1 in {NoMatchingKey, CryptoError, AmbiguousKeyId})
            && (task.job.VerifyJob? && (HoldsLock(task.pc) || task.pc.AwaitLock?) ==> task.refreshes == 1)
  {
    RunKeepsInv(c, run, i);
    assert TaskInv(c, run[i], run[i].tasks[t]);
  }

  // ---------- progress ----------

  /** An upper bound on the sections a call has left. */
  function Remaining<K>(pc: Pc<K>): nat {
    match pc
    case Start => 13
    case FirstVerify(_) => 12
    case Observe => 11
    case AgeCheck => 10
    case AwaitLock => 9
    case Locked => 8
    case Recheck(_) => 7
    case Fetching => 6
    case Fetched(_, _) => 5
    case Unlock(_) => 4
    case SecondSnapshot => 2
    case SecondVerify(_) => 1
    case Done(_) => 0
  }

  function Work<K, T>(tasks: seq<Task<K, T>>): nat {
    if tasks == [] then 0 else Work(tasks[..|tasks| - 1]) + Remaining(tasks[|tasks| - 1].pc)
  }

  lemma {:induction false} WorkOfUpdate<K, T>(tasks: seq<Task<K, T>>, t: nat, task: Task<K, T>)
    requires t < |tasks|
    ensures Work(tasks[t := task]) + Remaining(tasks[t].pc) == Work(tasks) + Remaining(task.pc)
  {
    var n := |tasks| - 1;
    if t == n {
      assert tasks[t := task][..n] == tasks[..n];
    } else {
      assert tasks[t := task][..n] == tasks[..n][t := task];
      WorkOfUpdate(tasks[..n], t, task);
    }
  }

  lemma AdvanceLowersRemaining<K, T>(
    c: Config<K, T>, task: Task<K, T>, current: Snapshot<K>, now: nat, fetch: Option<K>)
    requires !task.pc.Done?
    ensures Remaining(Advance(c, task, current, now, fetch).task.pc) < Remaining(task.pc)
  {
  }

  /** Every section a call runs, and every drop, leaves less to do. */
  lemma StepLowersWork<K, T>(c: Config<K, T>, s: State<K, T>, step: Step<K, T>)
    requires Enabled(c, s, step) && (step.Poll? || step.Drop?)
    ensures Work(Apply(c, s, step).tasks) < Work(s.tasks)
  {
    var task := s.tasks[step.t];
    match step
    case Poll(t, fetch) =>
      AdvanceLowersRemaining(c, task, s.Current(), s.now, fetch);
      WorkOfUpdate(s.tasks, t, Advance(c, task, s.Current(), s.now, fetch).task);
    case Drop(t) =>
      WorkOfUpdate(s.tasks, t, Abandon(task).task);
  }

  /** A dropped fetch is harmless: the stored snapshot stays, the mutex is free, and whoever waits for it can
      go on. */
  lemma DroppedFetchFreesOthers<K(!new), T(!new)>(c: Config<K, T>, run: seq<State<K, T>>, i: nat, t: nat, u: nat)
    requires IsRun(c, run) && i < |run| && t < |run[i].tasks| && u < |run[i].tasks|
    requires run[i].tasks[t].pc.Fetching? && run[i].tasks[u].pc.AwaitLock?
    ensures !CanPoll(run[i], u) && Enabled(c, run[i], Drop(t))
    ensures var s' := Apply(c, run[i], Drop(t));
            s'.published == run[i].published && s'.lock == None && CanPoll(s', u)
  {
    RunKeepsInv(c, run, i);
    assert HoldsLock(run[i].tasks[t].pc);
  }

  /** No reachable state is stuck: while a call is unfinished, some call can run. */
  lemma SomeCallCanRun<K(!new), T(!new)>(c: Config<K, T>, run: seq<State<K, T>>, i: nat, t: nat) returns (u: nat)
    requires IsRun(c, run) && i < |run| && t < |run[i].tasks|
    requires !run[i].tasks[t].pc.Done?
    ensures CanPoll(run[i], u)
  {
    RunKeepsInv(c, run, i);
    if run[i].lock.Some? {
      u := run[i].lock.value;
      assert HoldsLock(run[i].tasks[u].pc);
    } else {
      u := t;
    }
  }

  /** One, for a section of a call or a drop; neither time passing nor a call starting counts. */
  ghost function CallStep<K, T>(s: State<K, T>, s': State<K, T>): nat {
    if s.tasks != s'.tasks && |s.tasks| == |s'.tasks| then 1 else 0
  }

  ghost function CallSteps<K, T>(run: seq<State<K, T>>, i: nat, j: nat): nat
    requires i <= j < |run|
    decreases j - i
  {
    if i == j then 0 else CallSteps(run, i, j - 1) + CallStep(run[j - 1], run[j])
  }

  lemma WorkOfArrival<K, T>(tasks: seq<Task<K, T>>, task: Task<K, T>)
    ensures Work(tasks + [task]) == Work(tasks) + Remaining(task.pc)
  {
    assert (tasks + [task])[..|tasks|] == tasks;
  }

  /** The work in progress, less thirteen sections for each call ever started. */
  ghost function Debt<K, T>(s: State<K, T>): int {
    Work(s.tasks) - 13 * |s.tasks|
  }

  /** The step to `run[k]` is paid for. */
  ghost predicate Paid<K, T>(run: seq<State<K, T>>, k: nat) {
    0 < k < |run| && CallStep(run[k - 1], run[k]) + Debt(run[k]) <= Debt(run[k - 1])
  }

  /** However the calls interleave, they take at most the work in progress at the start and thirteen
      sections for each call that starts meanwhile; with `SomeCallCanRun`, all of them finish once no more
      start, as long as each fetch returns. */
  lemma CallsFinish<K(!new), T(!new)>(c: Config<K, T>, run: seq<State<K, T>>, i: nat, j: nat)
    requires IsRun(c, run) && i <= j < |run|
    ensures CallSteps(run, i, j) + Work(run[j].tasks) <= Work(run[i].tasks) + 13 * (|run[j].tasks| - |run[i].tasks|)
  {
    forall k | i < k <= j ensures Paid(run, k) {
      EveryStepIsPaid(c, run, k);
    }
    DebtFalls(run, i, j);
  }

  lemma {:induction false} DebtFalls<K, T>(run: seq<State<K, T>>, i: nat, j: nat)
    requires i <= j < |run| && forall k :: i < k <= j ==> Paid(run, k)
    ensures CallSteps(run, i, j) + Debt(run[j]) <= Debt(run[i])
    decreases j - i
  {
    if i < j {
      DebtFalls(run, i, j - 1);
      assert Paid(run, j);
    }
  }

  lemma EveryStepIsPaid<K(!new), T(!new)>(c: Config<K, T>, run: seq<State<K, T>>, k: nat)
    requires IsRun(c, run) && 0 < k < |run|
    ensures Paid(run, k)
  {
    var step := StepBefore(c, run, k);
    StepLowersDebt(c, run[k - 1], step);
  }

  lemma StepLowersDebt<K, T>(c: Config<K, T>, s: State<K, T>, step: Step<K, T>)
    requires Enabled(c, s, step)
    ensures CallStep(s, Apply(c, s, step)) + Debt(Apply(c, s, step)) <= Debt(s)
  {
    match step
    case Elapse(_) =>
    case Spawn(_) => WorkOfArrival(s.tasks, Apply(c, s, step).tasks[|s.tasks|]);
    case _ => StepLowersWork(c, s, step);
  }
}
