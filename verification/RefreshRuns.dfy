/** The object's `Refresh` and `VerifyIdToken` are runs of the step system, with others storing while a call
    waits for the mutex or without. */
module RefreshRuns {
  import opened Wrappers
  import opened RefreshProtocol
  import opened OidcProviderObject

  /** The steps lead from `s` to `s'`. */
  ghost predicate Leads<K, T>(c: Config<K, T>, s: State<K, T>, steps: seq<Step<K, T>>, s': State<K, T>)
    decreases |steps|
  {
    if steps == [] then s == s'
    else Enabled(c, s, steps[0]) && Leads(c, Apply(c, s, steps[0]), steps[1..], s')
  }

  lemma {:induction false} LeadsOn<K, T>(
    c: Config<K, T>, s: State<K, T>, steps: seq<Step<K, T>>, s': State<K, T>, step: Step<K, T>)
    requires Leads(c, s, steps, s') && Enabled(c, s', step)
    ensures Leads(c, s, steps + [step], Apply(c, s', step))
    decreases |steps|
  {
    if steps == [] {
      assert Leads(c, Apply(c, s, step), [], Apply(c, s', step));
      assert (steps + [step])[1..] == [];
    } else {
      LeadsOn(c, Apply(c, s, steps[0]), steps[1..], s', step);
      assert (steps + [step])[1..] == steps[1..] + [step];
    }
  }

  /** Lets time pass until `until`, then runs one section of `t`. */
  lemma WaitAndPoll<K, T>(
    c: Config<K, T>, s0: State<K, T>, steps: seq<Step<K, T>>, s: State<K, T>, t: nat, until: nat, fetch: Option<K>)
    returns (steps': seq<Step<K, T>>, s': State<K, T>)
    requires Leads(c, s0, steps, s) && s.published != [] && CanPoll(s, t) && s.now <= until
    ensures Leads(c, s0, steps', s')
    ensures s' == Install(s.(now := until), t, Advance(c, s.tasks[t], s.Current(), until, fetch))
  {
    var wait := Elapse(until - s.now);
    LeadsOn(c, s0, steps, s, wait);
    var s1 := Apply(c, s, wait);
    LeadsOn(c, s0, steps + [wait], s1, Poll(t, fetch));
    steps' := steps + [wait] + [Poll(t, fetch)];
    s' := Apply(c, s1, Poll(t, fetch));
  }

  /** The same, for a section whose effect is known. */
  lemma WaitAndRun<K, T>(
    c: Config<K, T>, s0: State<K, T>, steps: seq<Step<K, T>>, s: State<K, T>, t: nat, until: nat, fetch: Option<K>,
    e: Effect<K, T>)
    returns (steps': seq<Step<K, T>>, s': State<K, T>)
    requires Leads(c, s0, steps, s) && s.published != [] && CanPoll(s, t) && s.now <= until
    requires Advance(c, s.tasks[t], s.Current(), until, fetch) == e
    ensures Leads(c, s0, steps', s') && s' == Install(s.(now := until), t, e)
  {
    steps', s' := WaitAndPoll(c, s0, steps, s, t, until, fetch);
  }

  /** Nothing but the mutex, the time and call `t` differs. */
  ghost predicate OnlyCall<K, T>(s: State<K, T>, s': State<K, T>, t: nat) {
    && s'.published == s.published && |s'.tasks| == |s.tasks|
    && (forall u :: 0 <= u < |s.tasks| && u != t ==> s'.tasks[u] == s.tasks[u])
    && (t < |s.tasks| ==> s'.tasks[t].job == s.tasks[t].job)
  }

  /** The numbering of the snapshots, with nobody holding the mutex. */
  ghost predicate Quiet<K, T>(s: State<K, T>) {
    s.published != [] && s.Current().gen == |s.published| - 1 && s.lock == None
  }

  ghost predicate IsAt<K, T>(s: State<K, T>, t: nat, pc: Pc<K>) {
    t < |s.tasks| && s.tasks[t].pc == pc
  }

  /** From the observation to the age test. */
  lemma ObserveAndCheck<K, T>(
    c: Config<K, T>, s0: State<K, T>, steps0: seq<Step<K, T>>, s: State<K, T>, t: nat, at: nat)
    returns (steps: seq<Step<K, T>>, s': State<K, T>)
    requires Leads(c, s0, steps0, s) && s.published != [] && IsAt(s, t, Observe) && s.now <= at
    ensures Leads(c, s0, steps, s') && OnlyCall(s, s', t) && s'.lock == s.lock && s'.now == at
    ensures IsAt(s', t, if Young(c, s.Current(), at) then AfterRefresh(s.tasks[t].job, true) else AwaitLock)
    ensures s'.tasks[t].observed == Some(s.Current())
  {
    var s1;
    steps, s1 := WaitAndPoll(c, s0, steps0, s, t, s.now, None);
    assert IsAt(s1, t, AgeCheck) && s1.tasks[t].observed == Some(s.Current()) && OnlyCall(s, s1, t);
    steps, s' := WaitAndPoll(c, s0, steps, s1, t, at, None);
  }

  /** Taking the free mutex and reading the snapshot again. */
  lemma LockAndReread<K, T>(c: Config<K, T>, s0: State<K, T>, steps0: seq<Step<K, T>>, s: State<K, T>, t: nat)
    returns (steps: seq<Step<K, T>>, s': State<K, T>)
    requires Leads(c, s0, steps0, s) && Quiet(s) && IsAt(s, t, AwaitLock)
    ensures Leads(c, s0, steps, s') && OnlyCall(s, s', t) && s'.now == s.now
    ensures IsAt(s', t, Recheck(s.Current())) && s'.tasks[t].observed == s.tasks[t].observed
  {
    var s1;
    var locked := s.tasks[t].(pc := Locked);
    steps, s1 := WaitAndRun(c, s0, steps0, s, t, s.now, None, Effect(locked, Take, None));
    steps, s' := WaitAndRun(c, s0, steps, s1, t, s.now, None, Effect(locked.(pc := Recheck(s.Current())), Keep, None));
  }

  /** Dropping the guard and returning. */
  lemma DropGuard<K, T>(c: Config<K, T>, s0: State<K, T>, steps0: seq<Step<K, T>>, s: State<K, T>, t: nat, ok: bool)
    returns (steps: seq<Step<K, T>>, s': State<K, T>)
    requires Leads(c, s0, steps0, s) && s.published != [] && IsAt(s, t, Unlock(ok))
    ensures Leads(c, s0, steps, s') && OnlyCall(s, s', t) && s'.lock == None && s'.now == s.now
    ensures IsAt(s', t, AfterRefresh(s.tasks[t].job, ok))
  {
    steps, s' := WaitAndPoll(c, s0, steps0, s, t, s.now, None);
  }

  /** A successful fetch, stored. */
  lemma FetchAndStore<K, T>(
    c: Config<K, T>, s0: State<K, T>, steps0: seq<Step<K, T>>, s: State<K, T>, t: nat, at: nat, keys: K)
    returns (steps: seq<Step<K, T>>, s': State<K, T>)
    requires Leads(c, s0, steps0, s) && s.published != [] && IsAt(s, t, Fetching) && s.now <= at
    ensures Leads(c, s0, steps, s') && IsAt(s', t, Unlock(true)) && s'.now == at
    ensures OnlyCall(s.(published := s.published + [Successor(s.Current(), keys, at)]), s', t)
  {
    var s1;
    var fetched, next := s.tasks[t].(pc := Fetched(keys, at)), Successor(s.Current(), keys, at);
    steps, s1 := WaitAndRun(c, s0, steps0, s, t, at, Some(keys), Effect(fetched, Keep, None));
    steps, s' := WaitAndRun(c, s0, steps, s1, t, at, None, Effect(fetched.(pc := Unlock(true)), Keep, Some(next)));
  }

  /** The stored snapshots after a fetch. */
  ghost function AfterFetch<K, T>(s: State<K, T>, fetch: Option<K>, at: nat): State<K, T>
    requires s.published != []
  {
    match fetch
    case None => s
    case Some(keys) => s.(published := s.published + [Successor(s.Current(), keys, at)])
  }

  /** A failed fetch. */
  lemma FetchInVain<K, T>(c: Config<K, T>, s0: State<K, T>, steps0: seq<Step<K, T>>, s: State<K, T>, t: nat, at: nat)
    returns (steps: seq<Step<K, T>>, s': State<K, T>)
    requires Leads(c, s0, steps0, s) && s.published != [] && IsAt(s, t, Fetching) && s.now <= at
    ensures Leads(c, s0, steps, s') && IsAt(s', t, Unlock(false)) && s'.now == at && OnlyCall(s, s', t)
  {
    steps, s' := WaitAndPoll(c, s0, steps0, s, t, at, None);
  }

  /** From the re-read under the mutex to the end, when the snapshot is still the observed one. */
  lemma FinishRefresh<K, T>(
    c: Config<K, T>, s0: State<K, T>, steps0: seq<Step<K, T>>, s: State<K, T>, t: nat, recheckedAt: nat,
    fetch: Option<K>, fetchedAt: nat)
    returns (steps: seq<Step<K, T>>, s': State<K, T>)
    requires Leads(c, s0, steps0, s) && s.published != [] && IsAt(s, t, Recheck(s.Current()))
    requires s.tasks[t].observed == Some(s.Current()) && !Young(c, s.Current(), recheckedAt)
    requires s.now <= recheckedAt <= fetchedAt
    ensures Leads(c, s0, steps, s') && s'.lock == None && s'.now == fetchedAt
    ensures OnlyCall(AfterFetch(s, fetch, fetchedAt), s', t)
    ensures IsAt(s', t, AfterRefresh(s.tasks[t].job, fetch.Some?))
  {
    var s1;
    steps, s1 := WaitAndRun(
      c, s0, steps0, s, t, recheckedAt, None, Effect(s.tasks[t].(pc := Fetching), Keep, None));
    assert OnlyCall(s, s1, t) && s1.Current() == s.Current();
    steps, s' := FetchAndReturn(c, s0, steps, s1, t, fetch, fetchedAt);
  }

  lemma FetchAndReturn<K, T>(
    c: Config<K, T>, s0: State<K, T>, steps0: seq<Step<K, T>>, s: State<K, T>, t: nat, fetch: Option<K>, at: nat)
    returns (steps: seq<Step<K, T>>, s': State<K, T>)
    requires Leads(c, s0, steps0, s) && s.published != [] && IsAt(s, t, Fetching) && s.now <= at
    ensures Leads(c, s0, steps, s') && s'.lock == None && s'.now == at
    ensures OnlyCall(AfterFetch(s, fetch, at), s', t)
    ensures IsAt(s', t, AfterRefresh(s.tasks[t].job, fetch.Some?))
  {
    var s1;
    if fetch.Some? {
      steps, s1 := FetchAndStore(c, s0, steps0, s, t, at, fetch.value);
      steps, s' := DropGuard(c, s0, steps, s1, t, true);
    } else {
      steps, s1 := FetchInVain(c, s0, steps0, s, t, at);
      steps, s' := DropGuard(c, s0, steps, s1, t, false);
    }
  }

  // ---------- other calls, while this one waits ----------

  /** When the last of the others stored. */
  function LastStore<K>(others: seq<(K, nat)>, from: nat): nat {
    if others == [] then from else others[|others| - 1].1
  }

  /** The others store one after another, from `from` on, each a full interval after the snapshot it replaces. */
  predicate Spaced<K, T>(c: Config<K, T>, s: Snapshot<K>, others: seq<(K, nat)>, from: nat) {
    others == [] ||
    var front, last := others[..|others| - 1], others[|others| - 1];
    && Spaced(c, s, front, from) && LastStore(front, from) <= last.1
    && AfterOthers(s, front).fetchedAt + c.interval <= last.1
  }

  /** What the others leave of a state in which `t` waits for the mutex. */
  ghost predicate Waited<K, T>(s: State<K, T>, s': State<K, T>, t: nat, stored: Snapshot<K>, now: nat) {
    && Quiet(s') && s'.Current() == stored && s'.now == now
    && t < |s.tasks| <= |s'.tasks| && s'.tasks[t] == s.tasks[t]
  }

  /** One more call, up to its observation. */
  lemma StartCall<K, T>(c: Config<K, T>, s0: State<K, T>, steps0: seq<Step<K, T>>, s: State<K, T>)
    returns (steps: seq<Step<K, T>>, s': State<K, T>)
    requires Leads(c, s0, steps0, s) && s.published != []
    ensures Leads(c, s0, steps, s') && IsAt(s', |s.tasks|, Observe)
    ensures s' == s.(tasks := s'.tasks) && s.tasks <= s'.tasks && |s'.tasks| == |s.tasks| + 1
  {
    LeadsOn(c, s0, steps0, s, Spawn(RefreshJob));
    steps, s' :=
        WaitAndPoll(c, s0, steps0 + [Spawn(RefreshJob)], Apply(c, s, Spawn(RefreshJob)), |s.tasks|, s.now, None);
  }

  /** A call that starts now, fetches at once and stores. */
  lemma OneOther<K, T>(
    c: Config<K, T>, s0: State<K, T>, steps0: seq<Step<K, T>>, s: State<K, T>, t: nat, keys: K, at: nat)
    returns (steps: seq<Step<K, T>>, s': State<K, T>)
    requires Leads(c, s0, steps0, s) && Quiet(s) && t < |s.tasks| && s.now <= at && !Young(c, s.Current(), at)
    ensures Leads(c, s0, steps, s') && Waited(s, s', t, Successor(s.Current(), keys, at), at)
  {
    var u, s1, s2, s3 := |s.tasks|, s, s, s;
    steps, s1 := StartCall(c, s0, steps0, s);
    steps, s2 := ObserveAndCheck(c, s0, steps, s1, u, at);
    assert s2.Current() == s.Current() && s2.tasks[t] == s.tasks[t];
    steps, s3 := LockAndReread(c, s0, steps, s2, u);
    assert s3.Current() == s.Current() && s3.tasks[t] == s.tasks[t];
    steps, s' := FinishRefresh(c, s0, steps, s3, u, at, Some(keys), at);
  }

  lemma {:induction false} OthersStore<K, T>(
    c: Config<K, T>, s0: State<K, T>, steps0: seq<Step<K, T>>, s: State<K, T>, t: nat, others: seq<(K, nat)>)
    returns (steps: seq<Step<K, T>>, s': State<K, T>)
    requires Leads(c, s0, steps0, s) && Quiet(s) && t < |s.tasks| && Spaced(c, s.Current(), others, s.now)
    ensures Leads(c, s0, steps, s')
    ensures Waited(s, s', t, AfterOthers(s.Current(), others), LastStore(others, s.now))
  {
    if others == [] {
      steps, s' := steps0, s;
    } else {
      var front, last := others[..|others| - 1], others[|others| - 1];
      var s1;
      steps, s1 := OthersStore(c, s0, steps0, s, t, front);
      steps, s' := OneOther(c, s0, steps, s1, t, last.0, last.1);
    }
  }

  /** From the re-read under the mutex to the end, when the snapshot is another one. */
  lemma FindReplaced<K, T>(c: Config<K, T>, s0: State<K, T>, steps0: seq<Step<K, T>>, s: State<K, T>, t: nat, at: nat)
    returns (steps: seq<Step<K, T>>, s': State<K, T>)
    requires Leads(c, s0, steps0, s) && s.published != [] && IsAt(s, t, Recheck(s.Current())) && s.now <= at
    requires !SameSnapshot(s.tasks[t], s.Current())
    ensures Leads(c, s0, steps, s') && OnlyCall(s, s', t) && s'.lock == None && s'.now == at
    ensures IsAt(s', t, AfterRefresh(s.tasks[t].job, true))
  {
    var s1;
    steps, s1 := WaitAndPoll(c, s0, steps0, s, t, at, None);
    assert IsAt(s1, t, Unlock(true)) && OnlyCall(s, s1, t);
    steps, s' := DropGuard(c, s0, steps, s1, t, true);
  }

  /** The call that saw its snapshot old takes the mutex and fetches. */
  lemma RefreshAlone<K, T>(
    c: Config<K, T>, s0: State<K, T>, steps0: seq<Step<K, T>>, s: State<K, T>, t: nat, env: Environment<K>)
    returns (steps: seq<Step<K, T>>, s': State<K, T>)
    requires Leads(c, s0, steps0, s) && Quiet(s) && IsAt(s, t, AwaitLock)
    requires s.tasks[t].observed == Some(s.Current()) && !Young(c, s.Current(), env.recheckedAt)
    requires s.now <= env.recheckedAt <= env.fetchedAt
    ensures Leads(c, s0, steps, s') && s'.published != [] && s'.lock == None && s'.now == env.fetchedAt
    ensures IsAt(s', t, AfterRefresh(s.tasks[t].job, env.fetch.Some?)) && s'.tasks[t].job == s.tasks[t].job
    ensures s'.Current() == if env.fetch.Some? then Successor(s.Current(), env.fetch.value, env.fetchedAt)
        else s.Current()
  {
    var s1;
    steps, s1 := LockAndReread(c, s0, steps0, s, t);
    steps, s' := FinishRefresh(c, s0, steps, s1, t, env.recheckedAt, env.fetch, env.fetchedAt);
  }

  /** Or finds, once it has the mutex, that another call has replaced the snapshot. */
  lemma RefreshAmongOthers<K, T>(
    c: Config<K, T>, s0: State<K, T>, steps0: seq<Step<K, T>>, s: State<K, T>, t: nat, others: seq<(K, nat)>, at: nat)
    returns (steps: seq<Step<K, T>>, s': State<K, T>)
    requires Leads(c, s0, steps0, s) && Quiet(s) && IsAt(s, t, AwaitLock)
    requires s.tasks[t].observed == Some(s.Current())
    requires others != [] && Spaced(c, s.Current(), others, s.now) && LastStore(others, s.now) <= at
    ensures Leads(c, s0, steps, s') && s'.published != [] && s'.lock == None && s'.now == at
    ensures s'.Current() == AfterOthers(s.Current(), others)
    ensures IsAt(s', t, AfterRefresh(s.tasks[t].job, true)) && s'.tasks[t].job == s.tasks[t].job
  {
    var s1, s2;
    steps, s1 := OthersStore(c, s0, steps0, s, t, others);
    OthersAdvance(s.Current(), others);
    assert !SameSnapshot(s1.tasks[t], s1.Current());
    steps, s2 := LockAndReread(c, s0, steps, s1, t);
    assert s2.Current() == s1.Current();
    steps, s' := FindReplaced(c, s0, steps, s2, t, at);
  }

  lemma {:induction false} LastStoreIsLater<K, T>(c: Config<K, T>, s: Snapshot<K>, others: seq<(K, nat)>, from: nat)
    requires Spaced(c, s, others, from)
    ensures from <= LastStore(others, from)
  {
    if others != [] {
      LastStoreIsLater(c, s, others[..|others| - 1], from);
    }
  }

  // ---------- whole calls ----------

  /** The environment of a call, in the order of time from `now` on. */
  predicate InOrder<K, T>(c: Config<K, T>, s: Snapshot<K>, now: nat, env: Environment<K>) {
    && now <= env.checkedAt && Spaced(c, s, env.others, env.checkedAt)
    && LastStore(env.others, env.checkedAt) <= env.recheckedAt <= env.fetchedAt
  }

  /** `refresh`, from its first section to its return. */
  lemma RunOfRefresh<K, T>(
    c: Config<K, T>, s0: State<K, T>, steps0: seq<Step<K, T>>, s: State<K, T>, t: nat, env: Environment<K>)
    returns (steps: seq<Step<K, T>>, s': State<K, T>)
    requires Leads(c, s0, steps0, s) && Quiet(s) && IsAt(s, t, Observe) && InOrder(c, s.Current(), s.now, env)
    ensures Leads(c, s0, steps, s') && s'.published != [] && s'.lock == None && s'.now <= env.fetchedAt
    ensures var (stored, ok) := Refreshed(c, s.Current(), env);
            s'.Current() == stored && IsAt(s', t, AfterRefresh(s.tasks[t].job, ok)) && s'.tasks[t].job == s.tasks[t].job
  {
    var s1;
    LastStoreIsLater(c, s.Current(), env.others, env.checkedAt);
    steps, s1 := ObserveAndCheck(c, s0, steps0, s, t, env.checkedAt);
    s' := s1;
    if !Young(c, s.Current(), env.checkedAt) {
      if env.others == [] {
        steps, s' := RefreshAlone(c, s0, steps, s1, t, env);
      } else {
        steps, s' := RefreshAmongOthers(c, s0, steps, s1, t, env.others, env.recheckedAt);
      }
    }
  }

  /** A `Refresh` of the object is a run of the step system: the same readings, and others that store
      while it waits for the mutex, lead call `t` to the same stored snapshot and the same result. */
  lemma RefreshIsARun<K, T>(c: Config<K, T>, s: State<K, T>, t: nat, env: Environment<K>)
    returns (steps: seq<Step<K, T>>, s': State<K, T>)
    requires Quiet(s) && IsAt(s, t, Observe) && s.tasks[t].job == RefreshJob && InOrder(c, s.Current(), s.now, env)
    ensures Leads(c, s, steps, s') && s'.published != [] && t < |s'.tasks| && s'.lock == None
    ensures var (stored, ok) := Refreshed(c, s.Current(), env);
            s'.Current() == stored && s'.tasks[t].pc == Done(if ok then RefreshOk else RefreshFailed)
  {
    steps, s' := RunOfRefresh(c, s, [], s, t, env);
  }

  /** What `verify_id_token` returns when its call ends so. */
  function ResultOf<K>(o: Outcome<K>): Option<Result<Claims, TokenError>> {
    match o
    case Verified(claims, _, _) => Some(Ok(claims))
    case Rejected(e, _, _) => Some(Err(TokenError.Refused(e)))
    case MalformedToken => Some(Err(Malformed))
    case RefreshFailed => Some(Err(Upstream))
    case RefreshOk => None
    case Dropped => None
  }

  /** The call has ended with this result. */
  ghost predicate Returned<K, T>(s: State<K, T>, t: nat, result: Result<Claims, TokenError>) {
    t < |s.tasks| && s.tasks[t].pc.Done? && ResultOf(s.tasks[t].pc.outcome) == Some(result)
  }

  /** The first attempt: an answer, or on to the refresh. */
  lemma FirstAttempt<K, T>(c: Config<K, T>, s: State<K, T>, t: nat, at: nat)
    returns (steps: seq<Step<K, T>>, s': State<K, T>)
    requires Quiet(s) && IsAt(s, t, Start) && s.tasks[t].job.VerifyJob? && s.tasks[t].job.token.Some? && s.now <= at
    ensures Leads(c, s, steps, s') && OnlyCall(s, s', t) && s'.lock == None && s'.now == at
    ensures match Verify(c, s.Current(), s.tasks[t].job.token.value, s.tasks[t].job.rule, at)
            case Ok(claims) => Returned(s', t, Ok(claims))
            case Err(e) =>
              if IsPossiblyStaleKeys(e) then IsAt(s', t, Observe) else Returned(s', t, Err(TokenError.Refused(e)))
  {
    var s1;
    steps, s1 := WaitAndRun(
      c, s, [], s, t, s.now, None, Effect(s.tasks[t].(pc := FirstVerify(s.Current())), Keep, None));
    assert OnlyCall(s, s1, t) && s1.Current() == s.Current();
    steps, s' := WaitAndPoll(c, s, steps, s1, t, at, None);
  }

  /** The second attempt, with the snapshot stored by then. */
  lemma SecondAttempt<K, T>(
    c: Config<K, T>, s0: State<K, T>, steps0: seq<Step<K, T>>, s: State<K, T>, t: nat, at: nat)
    returns (steps: seq<Step<K, T>>, s': State<K, T>)
    requires Leads(c, s0, steps0, s) && s.published != [] && s.now <= at
    requires IsAt(s, t, SecondSnapshot) && s.tasks[t].job.VerifyJob? && s.tasks[t].job.token.Some?
    ensures Leads(c, s0, steps, s') && OnlyCall(s, s', t)
    ensures Returned(s', t, match Verify(c, s.Current(), s.tasks[t].job.token.value, s.tasks[t].job.rule, at)
                            case Ok(claims) => Ok(claims)
                            case Err(e) => Err(TokenError.Refused(e)))
  {
    var s1;
    steps, s1 := WaitAndRun(
      c, s0, steps0, s, t, s.now, None, Effect(s.tasks[t].(pc := SecondVerify(s.Current())), Keep, None));
    assert OnlyCall(s, s1, t) && s1.Current() == s.Current();
    steps, s' := WaitAndPoll(c, s0, steps, s1, t, at, None);
  }

  /** A `VerifyIdToken` of the object is a run of the step system: verify, refresh and verify again lead call
      `t` to the same stored snapshot and the same result. */
  lemma VerifyIdTokenIsARun<K, T>(c: Config<K, T>, s: State<K, T>, t: nat, at: nat, env: Environment<K>, again: nat)
    returns (steps: seq<Step<K, T>>, s': State<K, T>)
    requires Quiet(s) && IsAt(s, t, Start) && s.tasks[t].job.VerifyJob? && s.now <= at
    requires InOrder(c, s.Current(), at, env) && env.fetchedAt <= again
    ensures Leads(c, s, steps, s') && s'.published != []
    ensures var job := s.tasks[t].job;
            var (stored, result) := VerifiedToken(c, s.Current(), job.token, job.rule, at, env, again);
            s'.Current() == stored && Returned(s', t, result)
  {
    var job := s.tasks[t].job;
    if job.token == None {
      steps, s' := WaitAndPoll(c, s, [], s, t, s.now, None);
    } else {
      var s1;
      steps, s1 := FirstAttempt(c, s, t, at);
      s' := s1;
      if s1.tasks[t].pc == Observe {
        var s2;
        steps, s2 := RunOfRefresh(c, s, steps, s1, t, env);
        s' := s2;
        if Refreshed(c, s.Current(), env).1 {
          steps, s' := SecondAttempt(c, s, steps, s2, t, again);
        }
      }
    }
  }
}
