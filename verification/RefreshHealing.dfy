/** What the refresh protocol does when the issuer rotates its keys, and what it does not do: which calls
    get the new keys, exactly when the debounce keeps one from them, and what failed fetches count for. */
module RefreshHealing {
  import opened Wrappers
  import opened RefreshProtocol
  import opened RefreshTheorems

  /** The call has read the age of the snapshot it observed. */
  predicate PastAgeCheck<K, T>(task: Task<K, T>) {
    || task.pc.AwaitLock? || HoldsLock(task.pc) || task.pc.SecondSnapshot? || task.pc.SecondVerify?
    || task.pc == Done(RefreshOk) || task.attempts == 2
  }

  lemma AdvanceReadsAge<K, T>(
    c: Config<K, T>, task: Task<K, T>, current: Snapshot<K>, now: nat, fetch: Option<K>, since: nat)
    requires CountInv(task) && since <= now
    requires PastAgeCheck(task) ==> since <= task.checkedAt
    ensures var task' := Advance(c, task, current, now, fetch).task;
            PastAgeCheck(task') ==> since <= task'.checkedAt
  {
  }

  /** One step of any call: `t` keeps its beginning, and reads the age of what it observed no earlier than now. */
  lemma StepKeepsStart<K, T>(c: Config<K, T>, s: State<K, T>, step: Step<K, T>, t: nat, since: nat)
    requires Enabled(c, s, step) && t < |s.tasks| && CountInv(s.tasks[t]) && since <= s.now
    requires PastAgeCheck(s.tasks[t]) ==> since <= s.tasks[t].checkedAt
    ensures var s' := Apply(c, s, step);
            && t < |s'.tasks| && s'.tasks[t].born == s.tasks[t].born
            && (PastAgeCheck(s'.tasks[t]) ==> since <= s'.tasks[t].checkedAt)
  {
    if step.Poll? && step.t == t {
      AdvanceReadsAge(c, s.tasks[t], s.Current(), s.now, step.fetch, since);
    }
  }

  lemma CallIsCounted<K(!new), T(!new)>(c: Config<K, T>, run: seq<State<K, T>>, i: nat, t: nat)
    requires IsRun(c, run) && i < |run| && t < |run[i].tasks|
    ensures CountInv(run[i].tasks[t])
  {
    RunKeepsInv(c, run, i);
    assert TaskInv(c, run[i], run[i].tasks[t]);
  }

  lemma StepStarts<K(!new), T(!new)>(c: Config<K, T>, run: seq<State<K, T>>, i: nat, t: nat)
    requires IsRun(c, run) && i + 1 < |run| && |run[i].tasks| <= t < |run[i + 1].tasks|
    ensures run[i + 1].tasks[t].born + 1 == |run[i].published| && !PastAgeCheck(run[i + 1].tasks[t])
  {
    var step := StepAt(c, run, i);
  }

  /** A call that starts after state `b` observes no snapshot older than the one stored then, and reads
      its age no earlier. */
  lemma {:induction false} StartedLater<K(!new), T(!new)>(
    c: Config<K, T>, run: seq<State<K, T>>, b: nat, i: nat, t: nat)
    requires IsRun(c, run) && b <= i < |run| && |run[b].tasks| <= t < |run[i].tasks|
    ensures |run[b].published| <= run[i].tasks[t].born + 1
    ensures PastAgeCheck(run[i].tasks[t]) ==> run[b].now <= run[i].tasks[t].checkedAt
  {
    RunExtends(c, run, b, i - 1);
    if t < |run[i - 1].tasks| {
      StartedLater(c, run, b, i - 1, t);
      CallIsCounted(c, run, i - 1, t);
      var step := StepBefore(c, run, i);
      StepKeepsStart(c, run[i - 1], step, t, run[b].now);
    } else {
      StepStarts(c, run, i - 1, t);
    }
  }

  /** No call is about to store keys it fetched before `since`. */
  ghost predicate NothingStaleFetched<K, T>(s: State<K, T>, since: nat) {
    forall t :: 0 <= t < |s.tasks| && s.tasks[t].pc.Fetched? ==> since <= s.tasks[t].pc.at
  }

  /** What was stored between the two states was fetched at `since` or later. */
  ghost predicate AddedSince<K, T>(s: State<K, T>, s': State<K, T>, since: nat) {
    && |s.published| <= |s'.published|
    && forall g :: |s.published| <= g < |s'.published| ==> since <= s'.published[g].fetchedAt
  }

  /** With nothing stale fetched, every snapshot stored from now on was fetched at `since` or later. */
  lemma {:induction false} StoredLater<K(!new), T(!new)>(
    c: Config<K, T>, run: seq<State<K, T>>, b: nat, i: nat, since: nat)
    requires IsRun(c, run) && b <= i < |run|
    requires since <= run[b].now && NothingStaleFetched(run[b], since)
    ensures NothingStaleFetched(run[i], since) && AddedSince(run[b], run[i], since)
  {
    if b < i {
      StoredLater(c, run, b, i - 1, since);
      RunExtends(c, run, b, i - 1);
      StoresLaterBefore(c, run, i, since);
      AddedSinceJoins(run[b], run[i - 1], run[i], since);
    }
  }

  lemma AddedSinceJoins<K, T>(s: State<K, T>, s': State<K, T>, s'': State<K, T>, since: nat)
    requires AddedSince(s, s', since) && AddedSince(s', s'', since) && s'.published <= s''.published
    ensures AddedSince(s, s'', since)
  {
    forall g | |s.published| <= g < |s''.published| ensures since <= s''.published[g].fetchedAt {
      assert g < |s'.published| ==> s''.published[g] == s'.published[g];
    }
  }

  lemma StoresLaterBefore<K(!new), T(!new)>(c: Config<K, T>, run: seq<State<K, T>>, i: nat, since: nat)
    requires IsRun(c, run) && 0 < i < |run|
    requires since <= run[i - 1].now && NothingStaleFetched(run[i - 1], since)
    ensures NothingStaleFetched(run[i], since) && AddedSince(run[i - 1], run[i], since)
    ensures run[i - 1].published <= run[i].published
  {
    var step := StepBefore(c, run, i);
    StepStoresLater(c, run[i - 1], step, since);
  }

  lemma StepStoresLater<K, T>(c: Config<K, T>, s: State<K, T>, step: Step<K, T>, since: nat)
    requires Enabled(c, s, step) && since <= s.now && NothingStaleFetched(s, since)
    ensures NothingStaleFetched(Apply(c, s, step), since) && AddedSince(s, Apply(c, s, step), since)
    ensures s.published <= Apply(c, s, step).published
  {
    if step.Poll? {
      AdvanceUsesLock(c, s.tasks[step.t], s.Current(), s.now, step.fetch);
    }
  }

  // ---------- failed fetches ----------

  /** A failed fetch is not debounced: once the stored snapshot is an interval old, no `refresh` that starts
      later returns Ok until some fetch has succeeded and been stored, however many have failed. */
  lemma FailuresDoNotDebounce<K(!new), T(!new)>(c: Config<K, T>, run: seq<State<K, T>>, b: nat, i: nat, t: nat)
    requires IsRun(c, run) && b <= i < |run| && |run[b].tasks| <= t < |run[i].tasks|
    requires run[b].published != [] && !Young(c, run[b].Current(), run[b].now)
    requires run[i].tasks[t].pc == Done(RefreshOk)
    ensures |run[b].published| < |run[i].published|
  {
    StartedLater(c, run, b, i, t);
    RunKeepsInv(c, run, i);
    RunExtends(c, run, b, i);
    assert TaskInv(c, run[i], run[i].tasks[t]);
    assert run[b].Current() == run[i].published[|run[b].published| - 1];
  }

  // ---------- runs that go on ----------

  /** Each state follows the one before. */
  ghost predicate Chain<K(!new), T(!new)>(c: Config<K, T>, states: seq<State<K, T>>) {
    states != [] && forall i :: 0 <= i < |states| - 1 ==> Next(c, states[i], states[i + 1])
  }

  lemma ChainsJoin<K(!new), T(!new)>(c: Config<K, T>, first: seq<State<K, T>>, second: seq<State<K, T>>)
    requires Chain(c, first) && Chain(c, second) && first[|first| - 1] == second[0]
    ensures Chain(c, first + second[1..])
    ensures forall i :: 0 <= i < |second| ==> (first + second[1..])[|first| - 1 + i] == second[i]
  {
    var both, n := first + second[1..], |first| - 1;
    forall i | 0 <= i < |both| - 1 ensures Next(c, both[i], both[i + 1]) {
      if i < n {
        assert both[i] == first[i] && both[i + 1] == first[i + 1];
      } else {
        assert both[i] == second[i - n] && both[i + 1] == second[i - n + 1];
      }
    }
  }

  /** A run and a chain that begins where it ends. */
  lemma RunGoesOn<K(!new), T(!new)>(c: Config<K, T>, run: seq<State<K, T>>, chain: seq<State<K, T>>)
    requires IsRun(c, run) && Chain(c, chain) && run[|run| - 1] == chain[0]
    ensures IsRun(c, run + chain[1..])
    ensures forall i :: 0 <= i < |chain| ==> (run + chain[1..])[|run| - 1 + i] == chain[i]
  {
    ChainsJoin(c, run, chain);
  }

  /** The state with one more call, and the mutex as given. */
  ghost function Beside<K, T>(s: State<K, T>, lock: Option<nat>, task: Task<K, T>): State<K, T> {
    s.(lock := lock, tasks := s.tasks + [task])
  }

  lemma BesideNext<K(!new), T(!new)>(
    c: Config<K, T>, s: State<K, T>, lock: Option<nat>, task: Task<K, T>, task': Task<K, T>, use: LockUse)
    requires s.published != [] && !task.pc.Done? && (task.pc.AwaitLock? ==> lock == None)
    requires Advance(c, task, s.Current(), s.now, None) == Effect(task', use, None)
    ensures var lock' := match use case Keep => lock case Take => Some(|s.tasks|) case Release => None;
            Next(c, Beside(s, lock, task), Beside(s, lock', task'))
  {
    var lock' := match use case Keep => lock case Take => Some(|s.tasks|) case Release => None;
    assert Apply(c, Beside(s, lock, task), Poll(|s.tasks|, None)) == Beside(s, lock', task');
  }

  /** A call that has just started. */
  ghost function Started<K, T>(s: State<K, T>, job: Job<T>): Task<K, T>
    requires s.published != []
  {
    Task(job, Start, |s.published| - 1, None, 0, None, 0, 0)
  }

  lemma StartNext<K(!new), T(!new)>(c: Config<K, T>, s: State<K, T>, job: Job<T>)
    requires s.published != []
    ensures Next(c, s, Beside(s, s.lock, Started(s, job)))
  {
    assert Apply(c, s, Spawn(job)) == Beside(s, s.lock, Started(s, job));
  }

  // ---------- fetches that start ----------

  /** While a call fetches, it holds the mutex, and nobody else has fetched anything. */
  lemma OneInFlight<K, T>(s: State<K, T>, t: nat, since: nat)
    requires LockInv(s) && InFlight(s, t)
    ensures NothingStaleFetched(s, since)
  {
    forall u | 0 <= u < |s.tasks| ensures !s.tasks[u].pc.Fetched? {
      assert HoldsLock(s.tasks[u].pc) <==> s.lock == Some(u);
      assert HoldsLock(s.tasks[t].pc) <==> s.lock == Some(t);
    }
  }

  lemma FetchingAlone<K(!new), T(!new)>(c: Config<K, T>, run: seq<State<K, T>>, i: nat, t: nat, since: nat)
    requires IsRun(c, run) && i < |run| && InFlight(run[i], t)
    ensures NothingStaleFetched(run[i], since)
  {
    RunKeepsInv(c, run, i);
    OneInFlight(run[i], t, since);
  }

  /** What is stored while a call fetches and later was fetched since. */
  lemma StoredSinceFetching<K(!new), T(!new)>(
    c: Config<K, T>, run: seq<State<K, T>>, i: nat, j: nat, t: nat, since: nat)
    requires IsRun(c, run) && i <= j < |run| && InFlight(run[i], t) && since <= run[i].now
    ensures run[j].published == run[i].published
            || (run[j].published != [] && since <= run[j].Current().fetchedAt)
  {
    FetchingAlone(c, run, i, t, since);
    StoredLater(c, run, i, j, since);
    RunExtends(c, run, i, j);
    if |run[i].published| < |run[j].published| {
      assert since <= run[j].published[|run[j].published| - 1].fetchedAt;
    }
  }

  /** Fetches that start one after the other are an interval apart, or the first of them failed or was
      dropped: nothing was stored in between. Tokens no key verifies cannot make it otherwise. */
  lemma StartsAreSpaced<K(!new), T(!new)>(c: Config<K, T>, run: seq<State<K, T>>, i: nat, j: nat, t: nat, u: nat)
    requires IsRun(c, run) && i < j && j + 1 < |run|
    requires !InFlight(run[i], t) && InFlight(run[i + 1], t)
    requires !InFlight(run[j], u) && InFlight(run[j + 1], u)
    ensures run[i].now + c.interval <= run[j].now || run[i + 1].published == run[j].published
  {
    StepExtends(c, run, i);
    StoredSinceFetching(c, run, i + 1, j, t, run[i].now);
    NoEarlyFetch(c, run, j, u);
  }

  /** A refresh that starts now, with the stored snapshot old, gets as far as the mutex. */
  lemma ReachesLock<K(!new), T(!new)>(c: Config<K, T>, s: State<K, T>)
    returns (chain: seq<State<K, T>>, waiting: Task<K, T>)
    requires s.published != [] && s.lock == None && !Young(c, s.Current(), s.now)
    ensures |chain| == 5 && Chain(c, chain) && chain[0] == s && chain[4] == Beside(s, None, waiting)
    ensures waiting.pc == AwaitLock && waiting.job == RefreshJob && waiting.observed == Some(s.Current())
  {
    var t0 := Started(s, RefreshJob);
    var t1 := t0.(pc := Observe, refreshes := 1);
    var t2 := t1.(pc := AgeCheck, observed := Some(s.Current()));
    waiting := t2.(pc := AwaitLock, checkedAt := s.now);
    StartNext(c, s, RefreshJob);
    BesideNext(c, s, None, t0, t1, Keep);
    BesideNext(c, s, None, t1, t2, Keep);
    BesideNext(c, s, None, t2, waiting, Keep);
    chain := [s, Beside(s, None, t0), Beside(s, None, t1), Beside(s, None, t2), Beside(s, None, waiting)];
  }

  /** With the mutex free, it comes to fetch. */
  lemma StartsFetching<K(!new), T(!new)>(c: Config<K, T>, s: State<K, T>, waiting: Task<K, T>)
    returns (chain: seq<State<K, T>>, fetching: Task<K, T>)
    requires s.published != [] && !Young(c, s.Current(), s.now)
    requires waiting.pc == AwaitLock && waiting.job == RefreshJob && waiting.observed == Some(s.Current())
    ensures |chain| == 4 && Chain(c, chain) && chain[0] == Beside(s, None, waiting)
    ensures fetching == waiting.(pc := Fetching) && chain[3] == Beside(s, Some(|s.tasks|), fetching)
    ensures !InFlight(chain[2], |s.tasks|) && chain[2].now == s.now && chain[2].published == s.published
  {
    var u := Some(|s.tasks|);
    var t4, t5 := waiting.(pc := Locked), waiting.(pc := Recheck(s.Current()));
    fetching := waiting.(pc := Fetching);
    BesideNext(c, s, None, waiting, t4, Take);
    BesideNext(c, s, u, t4, t5, Keep);
    BesideNext(c, s, u, t5, fetching, Keep);
    chain := [Beside(s, None, waiting), Beside(s, u, t4), Beside(s, u, t5), Beside(s, u, fetching)];
  }

  lemma FetchFails<K(!new), T(!new)>(c: Config<K, T>, s: State<K, T>, fetching: Task<K, T>)
    returns (chain: seq<State<K, T>>, done: Task<K, T>)
    requires s.published != [] && fetching.pc == Fetching && fetching.job == RefreshJob
    ensures |chain| == 3 && Chain(c, chain) && chain[0] == Beside(s, Some(|s.tasks|), fetching)
    ensures chain[2] == Beside(s, None, done)
  {
    var u, t7 := Some(|s.tasks|), fetching.(pc := Unlock(false));
    done := fetching.(pc := Done(RefreshFailed));
    BesideNext(c, s, u, fetching, t7, Keep);
    BesideNext(c, s, u, t7, done, Release);
    chain := [Beside(s, u, fetching), Beside(s, u, t7), Beside(s, None, done)];
  }

  /** It fetches and fails. */
  lemma FetchesInVain<K(!new), T(!new)>(c: Config<K, T>, s: State<K, T>, waiting: Task<K, T>)
    returns (chain: seq<State<K, T>>, done: Task<K, T>)
    requires s.published != [] && !Young(c, s.Current(), s.now)
    requires waiting.pc == AwaitLock && waiting.job == RefreshJob && waiting.observed == Some(s.Current())
    ensures |chain| == 6 && Chain(c, chain) && chain[0] == Beside(s, None, waiting) && chain[5] == Beside(s, None, done)
    ensures !InFlight(chain[2], |s.tasks|) && InFlight(chain[3], |s.tasks|)
    ensures chain[2].now == s.now && chain[2].published == s.published && chain[3].published == s.published
  {
    var first, fetching := StartsFetching(c, s, waiting);
    var second;
    second, done := FetchFails(c, s, fetching);
    ChainsJoin(c, first, second);
    chain := first + second[1..];
  }

  lemma FailedFetch<K(!new), T(!new)>(c: Config<K, T>, s: State<K, T>)
    returns (chain: seq<State<K, T>>, done: Task<K, T>)
    requires s.published != [] && s.lock == None && !Young(c, s.Current(), s.now)
    ensures |chain| == 10 && Chain(c, chain) && chain[0] == s && chain[9] == Beside(s, None, done)
    ensures !InFlight(chain[6], |s.tasks|) && InFlight(chain[7], |s.tasks|)
    ensures chain[6].now == s.now && chain[6].published == s.published && chain[7].published == s.published
  {
    var first, waiting := ReachesLock(c, s);
    var second;
    second, done := FetchesInVain(c, s, waiting);
    ChainsJoin(c, first, second);
    chain := first + second[1..];
  }

  /** And after a failed fetch nothing keeps the next one waiting: from every reachable state with the mutex
      free and an old snapshot, two fetches can start at one and the same instant. */
  lemma FailedFetchesCanBeClose<K(!new), T(!new)>(c: Config<K, T>, run: seq<State<K, T>>)
    returns (run': seq<State<K, T>>, i: nat, j: nat, t: nat, u: nat)
    requires IsRun(c, run) && run[|run| - 1].published != [] && run[|run| - 1].lock == None
    requires !Young(c, run[|run| - 1].Current(), run[|run| - 1].now)
    ensures IsRun(c, run') && run <= run' && |run| <= i + 1 && i < j && j + 1 < |run'|
    ensures !InFlight(run'[i], t) && InFlight(run'[i + 1], t)
    ensures !InFlight(run'[j], u) && InFlight(run'[j + 1], u)
    ensures run'[i].now == run'[j].now && run'[i + 1].published == run'[j].published
  {
    var s := run[|run| - 1];
    var first, done := FailedFetch(c, s);
    RunGoesOn(c, run, first);
    var between := run + first[1..];
    var second, done' := FailedFetch(c, Beside(s, None, done));
    RunGoesOn(c, between, second);
    run' := between + second[1..];
    i, j, t, u := |run| - 1 + 6, |between| - 1 + 6, |s.tasks|, |s.tasks| + 1;
    assert run'[i] == between[i] == first[6] && run'[i + 1] == between[i + 1] == first[7];
    assert run'[j] == second[6] && run'[j + 1] == second[7];
  }

  // ---------- key rotation ----------

  /** Since `rotated`, discovery has returned these keys and no others. */
  ghost predicate ServesSince<K, T>(s: State<K, T>, rotated: nat, keys: K) {
    forall g :: 0 <= g < |s.published| && rotated <= s.published[g].fetchedAt ==> s.published[g].keys == keys
  }

  /** The snapshot and the time of the last attempt of a finished call. */
  ghost predicate Judged<K, T>(task: Task<K, T>, used: Snapshot<K>, at: nat) {
    && task.pc.Done? && task.attempts == 2
    && (match task.pc.outcome
        case Verified(_, snap, time) => used == snap && at == time
        case Rejected(_, snap, time) => used == snap && at == time
        case _ => false)
  }

  /** A second attempt uses keys fetched less than an interval before the call read their age, or keys
      stored after the call observed those it replaces. */
  lemma SecondAttemptUses<K(!new), T(!new)>(
    c: Config<K, T>, run: seq<State<K, T>>, i: nat, t: nat, used: Snapshot<K>, at: nat)
    requires IsRun(c, run) && i < |run| && t < |run[i].tasks| && Judged(run[i].tasks[t], used, at)
    ensures IsPublished(run[i], used) && JudgedBy(c, run[i], run[i].tasks[t], used, at)
    ensures IsPublished(run[i], run[i].tasks[t].observed.value)
        && run[i].tasks[t].born <= run[i].tasks[t].observed.value.gen
    ensures run[i].tasks[t].pc.outcome.Verified? <==>
            Verify(c, used, run[i].tasks[t].job.token.value, run[i].tasks[t].job.rule, at).Ok?
  {
    RunKeepsInv(c, run, i);
    assert TaskInv(c, run[i], run[i].tasks[t]);
  }

  lemma {:induction false} NewerIsFetchedLater<K, T>(c: Config<K, T>, s: State<K, T>, i: nat, j: nat)
    requires PublishedInv(c, s) && i <= j < |s.published|
    ensures s.published[i].fetchedAt <= s.published[j].fetchedAt
  {
    Spacing(c, s, i, j);
  }

  /** Key rotation heals: if the stored snapshot is an interval old, or was fetched after the rotation
      already, every call that starts from now on and has to try twice is answered by the new keys, unless
      keys fetched before the rotation are about to be stored. */
  lemma RotationHeals<K(!new), T(!new)>(
    c: Config<K, T>, run: seq<State<K, T>>, b: nat, i: nat, t: nat, rotated: nat, keys: K, used: Snapshot<K>, at: nat)
    requires IsRun(c, run) && b <= i < |run| && |run[b].tasks| <= t < |run[i].tasks|
    requires rotated <= run[b].now && NothingStaleFetched(run[b], rotated) && run[b].published != []
    requires !Young(c, run[b].Current(), run[b].now) || rotated <= run[b].Current().fetchedAt
    requires ServesSince(run[i], rotated, keys)
    requires Judged(run[i].tasks[t], used, at)
    ensures rotated <= used.fetchedAt && used.keys == keys
    ensures var task := run[i].tasks[t];
            && task.job.VerifyJob? && task.job.token.Some?
            && (task.pc.outcome.Verified? <==>
                Verify(c, Snapshot(0, 0, keys), task.job.token.value, task.job.rule, at).Ok?)
  {
    SecondAttemptUses(c, run, i, t, used, at);
    SecondAttemptIsFresh(c, run, b, i, t, rotated, used, at);
    assert run[i].published[used.gen] == used;
  }

  lemma SecondAttemptIsFresh<K(!new), T(!new)>(
    c: Config<K, T>, run: seq<State<K, T>>, b: nat, i: nat, t: nat, rotated: nat, used: Snapshot<K>, at: nat)
    requires IsRun(c, run) && b <= i < |run| && |run[b].tasks| <= t < |run[i].tasks|
    requires rotated <= run[b].now && NothingStaleFetched(run[b], rotated) && run[b].published != []
    requires !Young(c, run[b].Current(), run[b].now) || rotated <= run[b].Current().fetchedAt
    requires Judged(run[i].tasks[t], used, at)
    ensures rotated <= used.fetchedAt
  {
    SecondAttemptUses(c, run, i, t, used, at);
    StartedLater(c, run, b, i, t);
    StoredLater(c, run, b, i, rotated);
    RunExtends(c, run, b, i);
    var last := |run[b].published| - 1;
    assert run[i].published[last] == run[b].Current() && run[i].published[used.gen] == used;
    if rotated <= run[b].Current().fetchedAt {
      RunKeepsInv(c, run, i);
      NewerIsFetchedLater(c, run[i], last, used.gen);
    } else {
      assert last < used.gen;
    }
  }

  /** The token fails with these keys in a way that fresh ones could change. */
  ghost predicate FailsStale<K, T>(c: Config<K, T>, s: Snapshot<K>, token: T, rule: NonceCheck, at: nat) {
    var result := Verify(c, s, token, rule, at);
    result.Err? && IsPossiblyStaleKeys(result.error)
  }

  /** A call whose first attempt fails observes the snapshot. */
  lemma FailsOnce<K(!new), T(!new)>(c: Config<K, T>, s: State<K, T>, token: T, rule: NonceCheck)
    returns (chain: seq<State<K, T>>, task: Task<K, T>)
    requires s.published != [] && FailsStale(c, s.Current(), token, rule, s.now)
    ensures |chain| == 5 && Chain(c, chain) && chain[0] == s && chain[4] == Beside(s, s.lock, task)
    ensures task.job == VerifyJob(Some(token), rule) && task.pc == AgeCheck && task.attempts == 1
    ensures task.observed == Some(s.Current())
  {
    var current, e := s.Current(), Verify(c, s.Current(), token, rule, s.now).error;
    var t0 := Started(s, VerifyJob(Some(token), rule));
    var t1 := t0.(pc := FirstVerify(current));
    var t2 := t0.(pc := Observe, failed := Some((current, e)), attempts := 1, refreshes := 1);
    task := t2.(pc := AgeCheck, observed := Some(current));
    StartNext(c, s, t0.job);
    BesideNext(c, s, s.lock, t0, t1, Keep);
    BesideNext(c, s, s.lock, t1, t2, Keep);
    BesideNext(c, s, s.lock, t2, task, Keep);
    chain := [s, Beside(s, s.lock, t0), Beside(s, s.lock, t1), Beside(s, s.lock, t2), Beside(s, s.lock, task)];
  }

  /** Finding it young, it tries again at once, and fails again. */
  lemma FailsAgain<K(!new), T(!new)>(
    c: Config<K, T>, s: State<K, T>, token: T, rule: NonceCheck, task: Task<K, T>)
    returns (chain: seq<State<K, T>>, done: Task<K, T>)
    requires s.published != [] && FailsStale(c, s.Current(), token, rule, s.now) && Young(c, s.Current(), s.now)
    requires task.job == VerifyJob(Some(token), rule) && task.pc == AgeCheck && task.attempts == 1
    requires task.observed == Some(s.Current())
    ensures |chain| == 4 && Chain(c, chain) && chain[0] == Beside(s, s.lock, task)
    ensures chain[3] == Beside(s, s.lock, done) && done.job == task.job
    ensures Judged(done, s.Current(), s.now) && done.pc.outcome.Rejected?
  {
    var current, at, e := s.Current(), s.now, Verify(c, s.Current(), token, rule, s.now).error;
    var t4 := task.(pc := SecondSnapshot, checkedAt := at);
    var t5 := t4.(pc := SecondVerify(current));
    done := t4.(pc := Done(Rejected(e, current, at)), attempts := 2);
    BesideNext(c, s, s.lock, task, t4, Keep);
    BesideNext(c, s, s.lock, t4, t5, Keep);
    BesideNext(c, s, s.lock, t5, done, Keep);
    chain := [Beside(s, s.lock, task), Beside(s, s.lock, t4), Beside(s, s.lock, t5), Beside(s, s.lock, done)];
  }

  /** The second attempt of a call that fails first and finds the snapshot young. */
  lemma DebouncedCall<K(!new), T(!new)>(c: Config<K, T>, s: State<K, T>, token: T, rule: NonceCheck)
    returns (chain: seq<State<K, T>>, done: Task<K, T>)
    requires s.published != [] && FailsStale(c, s.Current(), token, rule, s.now) && Young(c, s.Current(), s.now)
    ensures |chain| == 8 && Chain(c, chain) && chain[0] == s && chain[7] == Beside(s, s.lock, done)
    ensures done.job == VerifyJob(Some(token), rule)
    ensures Judged(done, s.Current(), s.now) && done.pc.outcome.Rejected?
  {
    var first, task := FailsOnce(c, s, token, rule);
    var second;
    second, done := FailsAgain(c, s, token, rule, task);
    ChainsJoin(c, first, second);
    chain := first + second[1..];
  }

  /** The run goes on, and in state `i` call `t`, which started since, has had a second attempt with `used`. */
  ghost predicate LaterAnswer<K(!new), T(!new)>(
    c: Config<K, T>, run: seq<State<K, T>>, run': seq<State<K, T>>, i: nat, t: nat, used: Snapshot<K>, at: nat)
  {
    && IsRun(c, run') && run != [] && run <= run' && |run| - 1 <= i < |run'|
    && |run[|run| - 1].tasks| <= t < |run'[i].tasks| && Judged(run'[i].tasks[t], used, at)
  }

  lemma DebouncedRun<K(!new), T(!new)>(c: Config<K, T>, run: seq<State<K, T>>, token: T, rule: NonceCheck)
    returns (run': seq<State<K, T>>, i: nat, t: nat)
    requires IsRun(c, run)
    requires var s := run[|run| - 1];
             s.published != [] && FailsStale(c, s.Current(), token, rule, s.now) && Young(c, s.Current(), s.now)
    ensures var s := run[|run| - 1];
            && LaterAnswer(c, run, run', i, t, s.Current(), s.now) && run'[i].published == s.published
            && run'[i].tasks[t].job == VerifyJob(Some(token), rule) && run'[i].tasks[t].pc.outcome.Rejected?
  {
    var s := run[|run| - 1];
    var chain, done := DebouncedCall(c, s, token, rule);
    RunGoesOn(c, run, chain);
    run', i, t := run + chain[1..], |run| - 1 + 7, |s.tasks|;
    assert run'[i] == chain[7];
  }

  /** Which calls get the keys of the rotation can be told from the stored snapshot before they start: from
      now on every second attempt uses keys fetched since, however the run goes on, exactly if the stored
      snapshot is an interval old or was itself fetched since. Any token it fails for want of a key shows
      the other half. */
  lemma FreshAnswersIff<K(!new), T(!new)>(
    c: Config<K, T>, run: seq<State<K, T>>, rotated: nat, token: T, rule: NonceCheck)
    requires IsRun(c, run)
    requires var s := run[|run| - 1];
             && rotated <= s.now && NothingStaleFetched(s, rotated)
             && s.published != [] && FailsStale(c, s.Current(), token, rule, s.now)
    ensures var s := run[|run| - 1];
            (forall run': seq<State<K, T>>, i: nat, t: nat, used: Snapshot<K>, at: nat ::
               LaterAnswer(c, run, run', i, t, used, at) ==> rotated <= used.fetchedAt)
            <==> !Young(c, s.Current(), s.now) || rotated <= s.Current().fetchedAt
  {
    var s := run[|run| - 1];
    if Young(c, s.Current(), s.now) {
      var run', i, t := DebouncedRun(c, run, token, rule);
    }
    if !Young(c, s.Current(), s.now) || rotated <= s.Current().fetchedAt {
      forall run': seq<State<K, T>>, i: nat, t: nat, used: Snapshot<K>, at: nat |
        LaterAnswer(c, run, run', i, t, used, at)
        ensures rotated <= used.fetchedAt
      {
        assert run'[|run| - 1] == s;
        SecondAttemptIsFresh(c, run', |run| - 1, i, t, rotated, used, at);
      }
    }
  }

  /** In state `i` of the run that goes on, call `t`, which started since, has refused the token although
      the keys served since the rotation verify it at that very moment. */
  ghost predicate RefusedInVain<K(!new), T(!new)>(
    c: Config<K, T>, run: seq<State<K, T>>, run': seq<State<K, T>>, i: nat, t: nat, used: Snapshot<K>, at: nat,
    rotated: nat, keys: K, token: T, rule: NonceCheck)
  {
    && LaterAnswer(c, run, run', i, t, used, at) && ServesSince(run'[i], rotated, keys)
    && run'[i].tasks[t].job == VerifyJob(Some(token), rule) && run'[i].tasks[t].pc.outcome.Rejected?
    && Verify(c, Snapshot(0, 0, keys), token, rule, at).Ok?
  }

  /** What the debounce costs: a token that the stored keys fail and the new keys verify may be refused at
      the second attempt, by a call that starts now or later, exactly if the stored snapshot is young now. */
  lemma NewTokenRefusedIff<K(!new), T(!new)>(
    c: Config<K, T>, run: seq<State<K, T>>, rotated: nat, keys: K, token: T, rule: NonceCheck)
    requires IsRun(c, run)
    requires var s := run[|run| - 1];
             && rotated <= s.now && NothingStaleFetched(s, rotated) && ServesSince(s, rotated, keys)
             && s.published != [] && FailsStale(c, s.Current(), token, rule, s.now)
             && Verify(c, Snapshot(0, 0, keys), token, rule, s.now).Ok?
    ensures var s := run[|run| - 1];
            (exists run': seq<State<K, T>>, i: nat, t: nat, used: Snapshot<K>, at: nat ::
               RefusedInVain(c, run, run', i, t, used, at, rotated, keys, token, rule))
            <==> Young(c, s.Current(), s.now)
  {
    var s := run[|run| - 1];
    if Young(c, s.Current(), s.now) {
      var run', i, t := DebouncedRun(c, run, token, rule);
      assert RefusedInVain(c, run, run', i, t, s.Current(), s.now, rotated, keys, token, rule);
    } else {
      forall run': seq<State<K, T>>, i: nat, t: nat, used: Snapshot<K>, at: nat
        ensures !RefusedInVain(c, run, run', i, t, used, at, rotated, keys, token, rule)
      {
        if RefusedInVain(c, run, run', i, t, used, at, rotated, keys, token, rule) {
          assert run'[|run| - 1] == s;
          RotationHeals(c, run', |run| - 1, i, t, rotated, keys, used, at);
        }
      }
    }
  }

  /** Such a state is reachable, for every rotation while the stored snapshot is young. */
  lemma DebounceRefusesNewToken<K(!new), T(!new)>(
    c: Config<K, T>, old_: K, keys: K, token: T, rule: NonceCheck, fetchedAt: nat, rotated: nat, at: nat)
    returns (run: seq<State<K, T>>, run': seq<State<K, T>>, i: nat, t: nat)
    requires fetchedAt < rotated <= at < fetchedAt + c.interval
    requires FailsStale(c, Snapshot(0, fetchedAt, old_), token, rule, at)
    requires Verify(c, Snapshot(0, 0, keys), token, rule, at).Ok?
    ensures RefusedInVain(c, run, run', i, t, Snapshot(0, fetchedAt, old_), at, rotated, keys, token, rule)
  {
    var begin: State<K, T> := State(fetchedAt, [Snapshot(0, fetchedAt, old_)], None, []);
    var later := Apply(c, begin, Elapse(at - fetchedAt));
    assert Next(c, begin, later);
    run := [begin, later];
    run', i, t := DebouncedRun(c, run, token, rule);
  }
}
