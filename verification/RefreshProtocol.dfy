/**
 The JWKS refresh protocol of `OidcProvider`: an atomically swapped snapshot, a debounce, a mutex
 with a pointer-identity double check, and the verify / refresh / retry-once caller.

 Any number of tasks run `refresh` or `verify_id_token`. A step of the system is one atomic section
 of one task (a snapshot read, a clock reading, taking or dropping the mutex, a swap), the passage
 of time, the start of a call, or the dropping of a suspended call. Every interleaving is a run.
 */
module RefreshProtocol {
  import opened Wrappers

  /** A stored `Arc<ProviderState>`. Each store allocates a new one, and a task holds what it read,
      so pointer equality is equality of `gen`. */
  datatype Snapshot<K> = Snapshot(gen: nat, fetchedAt: nat, keys: K)

  datatype VerifyError =
    | NoMatchingKey | CryptoError | AmbiguousKeyId | OtherSignatureError
    | Expired | InvalidAudience | InvalidIssuer | InvalidNonce | OtherVerifyError

  /** The failures that fresh keys could change. */
  predicate IsPossiblyStaleKeys(e: VerifyError) {
    e.NoMatchingKey? || e.CryptoError? || e.AmbiguousKeyId?
  }

  datatype NonceCheck = Matches(expected: string) | Present | Skip

  datatype Claims = Claims(subject: string, nonce: Option<string>)

  predicate NonceAccepted(rule: NonceCheck, nonce: Option<string>) {
    match rule
    case Matches(expected) => nonce == Some(expected)
    case Present => nonce.Some?
    case Skip => true
  }

  /** `check` is everything the OpenID library verifies apart from the nonce, given the keys, the
      token and the time. */
  datatype Config<!K, !T> = Config(interval: nat, check: (K, T, nat) -> Result<Claims, VerifyError>)

  function Verify<K, T>(
    c: Config<K, T>, s: Snapshot<K>, token: T, rule: NonceCheck, now: nat): Result<Claims, VerifyError>
  {
    match c.check(s.keys, token, now)
    case Err(e) => Err(e)
    case Ok(claims) => if NonceAccepted(rule, claims.nonce) then Ok(claims) else Err(InvalidNonce)
  }

  /** `age() < min_refresh_interval`; `elapsed` saturates at zero, which this form does too. */
  predicate Young<K, T>(c: Config<K, T>, s: Snapshot<K>, now: nat) {
    now < s.fetchedAt + c.interval
  }

  // ---------- tasks ----------

  /** What a task was asked to do. A token that does not parse is `None`. */
  datatype Job<T> = RefreshJob | VerifyJob(token: Option<T>, rule: NonceCheck)

  datatype Outcome<K> =
    | RefreshOk
    | RefreshFailed
    | Verified(claims: Claims, used: Snapshot<K>, at: nat)
    | Rejected(error: VerifyError, used: Snapshot<K>, at: nat)
    | MalformedToken
    | Dropped

  datatype Pc<K> =
    | Start
    | FirstVerify(snap: Snapshot<K>)
    | Observe
    | AgeCheck
    | AwaitLock
    | Locked
    | Recheck(current: Snapshot<K>)
    | Fetching
    | Fetched(keys: K, at: nat)
    | Unlock(ok: bool)
    | SecondSnapshot
    | SecondVerify(snap: Snapshot<K>)
    | Done(outcome: Outcome<K>)

  /** The local variables of one call. `observed` is the local of that name in `refresh`; the other
      fields only record the call for the theorems: the generation current when it began, when it
      read the age of `observed`, its first failed attempt, and how often it verified and refreshed. */
  datatype Task<K, T> = Task(
    job: Job<T>, pc: Pc<K>, born: nat, observed: Option<Snapshot<K>>, checkedAt: nat,
    failed: Option<(Snapshot<K>, VerifyError)>, attempts: nat, refreshes: nat)

  /** `published` is every snapshot ever stored; its last element is what the `RwLock` holds. */
  datatype State<K, T> = State(
    now: nat, published: seq<Snapshot<K>>, lock: Option<nat>, tasks: seq<Task<K, T>>)
  {
    function Current(): Snapshot<K>
      requires |published| > 0
    {
      published[|published| - 1]
    }
  }

  datatype Step<K, T> =
    | Elapse(dt: nat)
    | Spawn(job: Job<T>)
    | Poll(t: nat, fetch: Option<K>)  // `fetch` is what discovery returns, if the task awaits it
    | Drop(t: nat)

  // ---------- steps ----------

  /** A task that has not finished can run, unless it waits for a mutex somebody else holds. */
  predicate CanPoll<K, T>(s: State<K, T>, t: nat) {
    t < |s.tasks| && !s.tasks[t].pc.Done? && (s.tasks[t].pc.AwaitLock? ==> s.lock == None)
  }

  /** A future can be dropped where it is suspended: before it runs, or at one of its awaits. */
  predicate CanDrop<K, T>(s: State<K, T>, t: nat) {
    t < |s.tasks| && (s.tasks[t].pc.Start? || s.tasks[t].pc.AwaitLock? || s.tasks[t].pc.Fetching?)
  }

  predicate Enabled<K, T>(c: Config<K, T>, s: State<K, T>, step: Step<K, T>) {
    s.published != [] &&
    match step
    case Elapse(_) => true
    case Spawn(_) => true
    case Poll(t, _) => CanPoll(s, t)
    case Drop(t) => CanDrop(s, t)
  }

  /** One call of `verify` on the token the task was given. */
  function Attempt<K, T>(c: Config<K, T>, job: Job<T>, snap: Snapshot<K>, now: nat): Result<Claims, VerifyError> {
    match job
    case VerifyJob(Some(token), rule) => Verify(c, snap, token, rule, now)
    case _ => Err(OtherVerifyError)
  }

  predicate SeesYoung<K, T>(c: Config<K, T>, task: Task<K, T>, now: nat) {
    task.observed.Some? && Young(c, task.observed.value, now)
  }

  /** `Arc::ptr_eq(&observed, &current)`. */
  predicate SameSnapshot<K, T>(task: Task<K, T>, current: Snapshot<K>) {
    task.observed.Some? && task.observed.value.gen == current.gen
  }

  /** Where a call goes when its `refresh` returns. */
  function AfterRefresh<K, T>(job: Job<T>, ok: bool): Pc<K> {
    if !ok then Done(RefreshFailed)
    else if job.RefreshJob? then Done(RefreshOk)
    else SecondSnapshot
  }

  datatype LockUse = Keep | Take | Release

  /** What one atomic section does: to the task itself, to the mutex, and to the shared snapshot. */
  datatype Effect<K, T> = Effect(task: Task<K, T>, lock: LockUse, stored: Option<Snapshot<K>>)

  /** The next atomic section of a call, given the snapshot currently stored and the time. */
  function Advance<K, T>(
    c: Config<K, T>, task: Task<K, T>, current: Snapshot<K>, now: nat, fetch: Option<K>): Effect<K, T>
  {
    match task.pc
    case Start =>
      (match task.job
       case RefreshJob => Effect(task.(pc := Observe, refreshes := 1), Keep, None)
       case VerifyJob(None, _) => Effect(task.(pc := Done(MalformedToken)), Keep, None)
       case VerifyJob(Some(_), _) => Effect(task.(pc := FirstVerify(current)), Keep, None))
    case FirstVerify(snap) =>
      (match Attempt(c, task.job, snap, now)
       case Ok(claims) =>
         Effect(task.(pc := Done(Verified(claims, snap, now)), attempts := task.attempts + 1), Keep, None)
       case Err(e) =>
         var failed := task.(failed := Some((snap, e)), attempts := task.attempts + 1);
         Effect(if IsPossiblyStaleKeys(e) then failed.(pc := Observe, refreshes := task.refreshes + 1)
                else failed.(pc := Done(Rejected(e, snap, now))), Keep, None))
    case Observe => Effect(task.(pc := AgeCheck, observed := Some(current)), Keep, None)
    case AgeCheck =>
      var next := if SeesYoung(c, task, now) then AfterRefresh(task.job, true) else AwaitLock;
      Effect(task.(checkedAt := now, pc := next), Keep, None)
    case AwaitLock => Effect(task.(pc := Locked), Take, None)
    case Locked => Effect(task.(pc := Recheck(current)), Keep, None)
    case Recheck(reread) =>
      var done := !SameSnapshot(task, reread) || Young(c, reread, now);
      Effect(task.(pc := if done then Unlock(true) else Fetching), Keep, None)
    case Fetching =>
      (match fetch
       case None => Effect(task.(pc := Unlock(false)), Keep, None)
       case Some(keys) => Effect(task.(pc := Fetched(keys, now)), Keep, None))
    case Fetched(keys, at) =>
      Effect(task.(pc := Unlock(true)), Keep, Some(Snapshot(current.gen + 1, at, keys)))
    case Unlock(ok) => Effect(task.(pc := AfterRefresh(task.job, ok)), Release, None)
    case SecondSnapshot => Effect(task.(pc := SecondVerify(current)), Keep, None)
    case SecondVerify(snap) =>
      (match Attempt(c, task.job, snap, now)
       case Ok(claims) =>
         Effect(task.(pc := Done(Verified(claims, snap, now)), attempts := task.attempts + 1), Keep, None)
       case Err(e) =>
         Effect(task.(pc := Done(Rejected(e, snap, now)), attempts := task.attempts + 1), Keep, None))
    case Done(_) => Effect(task, Keep, None)
  }

  /** Dropping the future drops the guard it holds. */
  function Abandon<K, T>(task: Task<K, T>): Effect<K, T> {
    Effect(task.(pc := Done(Dropped)), if task.pc.Fetching? then Release else Keep, None)
  }

  function Install<K, T>(s: State<K, T>, t: nat, e: Effect<K, T>): State<K, T>
    requires t < |s.tasks|
  {
    State(
      s.now,
      if e.stored.Some? then s.published + [e.stored.value] else s.published,
      match e.lock case Keep => s.lock case Take => Some(t) case Release => None,
      s.tasks[t := e.task])
  }

  function Apply<K, T>(c: Config<K, T>, s: State<K, T>, step: Step<K, T>): State<K, T>
    requires Enabled(c, s, step)
  {
    match step
    case Elapse(dt) => s.(now := s.now + dt)
    case Spawn(job) => s.(tasks := s.tasks + [Task(job, Start, |s.published| - 1, None, 0, None, 0, 0)])
    case Poll(t, fetch) => Install(s, t, Advance(c, s.tasks[t], s.Current(), s.now, fetch))
    case Drop(t) => Install(s, t, Abandon(s.tasks[t]))
  }

  ghost predicate Next<K(!new), T(!new)>(c: Config<K, T>, s: State<K, T>, s': State<K, T>) {
    exists step: Step<K, T> :: Enabled(c, s, step) && s' == Apply(c, s, step)
  }

  /** After discovery: one snapshot, no call in progress. */
  predicate Init<K, T>(s: State<K, T>) {
    |s.published| == 1 && s.published[0].gen == 0 && s.published[0].fetchedAt <= s.now
    && s.lock == None && s.tasks == []
  }

  ghost predicate IsRun<K(!new), T(!new)>(c: Config<K, T>, run: seq<State<K, T>>) {
    && run != [] && Init(run[0])
    && forall i :: 0 <= i < |run| - 1 ==> Next(c, run[i], run[i + 1])
  }

  // ---------- the invariant ----------

  /** The task is between taking the mutex and dropping the guard. */
  predicate HoldsLock<K>(pc: Pc<K>) {
    pc.Locked? || pc.Recheck? || pc.Fetching? || pc.Fetched? || pc.Unlock?
  }

  ghost predicate IsPublished<K, T>(s: State<K, T>, snap: Snapshot<K>) {
    snap.gen < |s.published| && s.published[snap.gen] == snap
  }

  /** Snapshots are numbered in order and each was fetched a full interval after the one before. */
  ghost predicate PublishedInv<K, T>(c: Config<K, T>, s: State<K, T>) {
    && s.published != []
    && (forall i :: 0 <= i < |s.published| ==> s.published[i].gen == i && s.published[i].fetchedAt <= s.now)
    && (forall i :: 0 < i < |s.published| ==> s.published[i - 1].fetchedAt + c.interval <= s.published[i].fetchedAt)
  }

  ghost predicate LockInv<K, T>(s: State<K, T>) {
    && (s.lock.Some? ==> s.lock.value < |s.tasks|)
    && (forall t :: 0 <= t < |s.tasks| ==> (HoldsLock(s.tasks[t].pc) <==> s.lock == Some(t)))
  }

  /** What `Ok` from `refresh` promises: the observed snapshot was young, or it has been replaced. */
  ghost predicate Delivered<K, T>(c: Config<K, T>, s: State<K, T>, task: Task<K, T>) {
    task.observed.Some?
        && (Young(c, task.observed.value, task.checkedAt) || task.observed.value.gen + 1 < |s.published|)
  }

  /** The same promise, seen in the snapshot a second attempt uses. */
  ghost predicate DeliveredBy<K, T>(c: Config<K, T>, task: Task<K, T>, used: Snapshot<K>) {
    && task.observed.Some? && task.observed.value.gen <= used.gen
    && (Young(c, task.observed.value, task.checkedAt) || task.observed.value.gen < used.gen)
  }

  /** The token of the task was judged at `at` by a snapshot stored since the call began. */
  ghost predicate JudgedBy<K, T>(c: Config<K, T>, s: State<K, T>, task: Task<K, T>, used: Snapshot<K>, at: nat) {
    && task.job.VerifyJob? && task.job.token.Some?
    && IsPublished(s, used) && task.born <= used.gen && at <= s.now
    && (task.attempts == 2 ==>
          task.failed.Some? && task.failed.value.0.gen <= used.gen && DeliveredBy(c, task, used))
  }

  /** The task saw `observed` old, before now. */
  ghost predicate SawOld<K, T>(c: Config<K, T>, s: State<K, T>, task: Task<K, T>) {
    task.observed.Some? && !Young(c, task.observed.value, task.checkedAt) && task.checkedAt <= s.now
  }

  ghost predicate ObservedInv<K, T>(s: State<K, T>, task: Task<K, T>) {
    && task.born < |s.published|
    && (task.observed.Some? ==> IsPublished(s, task.observed.value) && task.born <= task.observed.value.gen)
    && (task.failed.Some? ==> IsPublished(s, task.failed.value.0) && task.born <= task.failed.value.0.gen)
    && (task.failed.Some? && task.observed.Some? ==> task.failed.value.0.gen <= task.observed.value.gen)
  }

  /** How often a call has verified and refreshed, by where it is. */
  ghost predicate CountInv<K, T>(task: Task<K, T>) {
    && task.attempts <= 2 && task.refreshes <= 1
    && (task.pc.Start? || task.pc.FirstVerify? ==>
         task.attempts == 0 && task.refreshes == 0 && task.observed.None? && task.failed.None?)
    && (task.pc.FirstVerify? || task.pc.SecondSnapshot? || task.pc.SecondVerify? ==>
         task.job.VerifyJob? && task.job.token.Some?)
    && (!task.pc.Done? && !task.pc.Start? && !task.pc.FirstVerify? ==>
          task.refreshes == 1 && task.attempts == (if task.job.RefreshJob? then 0 else 1)
              && (task.job.VerifyJob? ==> task.job.token.Some?))
    && (task.job.VerifyJob? && task.refreshes == 1 ==> task.failed.Some? && IsPossiblyStaleKeys(task.failed.value.1))
    && (task.attempts == 2 ==>
          task.failed.Some? && task.refreshes == 1
          && task.pc.Done? && (task.pc.outcome.Verified? || task.pc.outcome.Rejected?))
  }

  ghost predicate OutcomeInv<K, T>(c: Config<K, T>, s: State<K, T>, task: Task<K, T>, o: Outcome<K>) {
    match o
    case RefreshOk => task.job.RefreshJob? && Delivered(c, s, task)
    case Verified(claims, used, at) =>
      JudgedBy(c, s, task, used, at) && Verify(c, used, task.job.token.value, task.job.rule, at) == Ok(claims)
    case Rejected(e, used, at) =>
      JudgedBy(c, s, task, used, at) && Verify(c, used, task.job.token.value, task.job.rule, at) == Err(e)
    case _ => true
  }

  ghost predicate PcInv<K, T>(c: Config<K, T>, s: State<K, T>, task: Task<K, T>) {
    match task.pc
    case Start => true
    case FirstVerify(snap) => IsPublished(s, snap) && task.born <= snap.gen
    case Observe => true
    case AgeCheck => task.observed.Some?
    case AwaitLock => SawOld(c, s, task)
    case Locked => SawOld(c, s, task)
    case Recheck(current) => SawOld(c, s, task) && s.published != [] && current == s.Current()
    case Fetching =>
      && SawOld(c, s, task) && s.published != [] && task.observed == Some(s.Current())
    case Fetched(_, at) =>
      && SawOld(c, s, task) && s.published != [] && task.observed == Some(s.Current())
      && task.observed.value.fetchedAt + c.interval <= at <= s.now
    case Unlock(ok) => ok ==> Delivered(c, s, task)
    case SecondSnapshot => Delivered(c, s, task) && task.failed.Some?
    case SecondVerify(snap) =>
      && DeliveredBy(c, task, snap) && task.failed.Some?
      && IsPublished(s, snap) && task.failed.value.0.gen <= snap.gen
    case Done(o) => OutcomeInv(c, s, task, o)
  }

  ghost predicate TaskInv<K, T>(c: Config<K, T>, s: State<K, T>, task: Task<K, T>) {
    ObservedInv(s, task) && CountInv(task) && PcInv(c, s, task)
  }

  ghost predicate Inv<K, T>(c: Config<K, T>, s: State<K, T>) {
    && PublishedInv(c, s)
    && LockInv(s)
    && forall t :: 0 <= t < |s.tasks| ==> TaskInv(c, s, s.tasks[t])
  }

  // ---------- the invariant is kept ----------

  /** Later states keep what was published. */
  ghost predicate Extends<K, T>(s: State<K, T>, s': State<K, T>) {
    s.published <= s'.published && s.now <= s'.now
  }

  /** What holds of a task still holds later, if it does not hold the mutex or nothing was published. */
  lemma TaskInvIsStable<K, T>(c: Config<K, T>, s: State<K, T>, s': State<K, T>, task: Task<K, T>)
    requires TaskInv(c, s, task) && Extends(s, s')
    requires HoldsLock(task.pc) ==> s'.published == s.published
    ensures TaskInv(c, s', task)
  {
  }

  /** Facts about the shared state that the next section of a call relies on. */
  ghost predicate CurrentOk<K, T>(s: State<K, T>) {
    s.published != [] && IsPublished(s, s.Current()) && s.Current().gen == |s.published| - 1
        && s.Current().fetchedAt <= s.now
  }

  /** Starting, and reading the snapshot. */
  lemma ReadKeepsTask<K, T>(c: Config<K, T>, s: State<K, T>, task: Task<K, T>, fetch: Option<K>)
    requires TaskInv(c, s, task) && CurrentOk(s)
    requires task.pc.Start? || task.pc.Observe? || task.pc.Locked? || task.pc.SecondSnapshot?
    ensures TaskInv(c, s, Advance(c, task, s.Current(), s.now, fetch).task)
  {
  }

  /** The two attempts to verify. */
  lemma VerifyKeepsTask<K, T>(c: Config<K, T>, s: State<K, T>, task: Task<K, T>, fetch: Option<K>)
    requires TaskInv(c, s, task) && CurrentOk(s)
    requires task.pc.FirstVerify? || task.pc.SecondVerify?
    ensures TaskInv(c, s, Advance(c, task, s.Current(), s.now, fetch).task)
  {
  }

  /** Deciding whether to refresh, and waiting. */
  lemma DecideKeepsTask<K, T>(c: Config<K, T>, s: State<K, T>, task: Task<K, T>, fetch: Option<K>)
    requires TaskInv(c, s, task) && CurrentOk(s)
    requires task.pc.AgeCheck? || task.pc.AwaitLock? || task.pc.Recheck? || task.pc.Fetching? || task.pc.Unlock?
        || task.pc.Done?
    ensures TaskInv(c, s, Advance(c, task, s.Current(), s.now, fetch).task)
  {
    if task.pc.Recheck? && SameSnapshot(task, task.pc.current) {
      // Same allocation as the one seen old: it is still old, so only the identity test decides.
      assert task.observed.value == s.Current();
    }
  }

  /** A section that stores nothing leaves its own task in order. */
  lemma AdvanceKeepsTask<K, T>(c: Config<K, T>, s: State<K, T>, task: Task<K, T>, fetch: Option<K>)
    requires TaskInv(c, s, task) && CurrentOk(s) && !task.pc.Fetched?
    ensures TaskInv(c, s, Advance(c, task, s.Current(), s.now, fetch).task)
  {
    match task.pc
    case Start => ReadKeepsTask(c, s, task, fetch);
    case Observe => ReadKeepsTask(c, s, task, fetch);
    case Locked => ReadKeepsTask(c, s, task, fetch);
    case SecondSnapshot => ReadKeepsTask(c, s, task, fetch);
    case FirstVerify(_) => VerifyKeepsTask(c, s, task, fetch);
    case SecondVerify(_) => VerifyKeepsTask(c, s, task, fetch);
    case _ => DecideKeepsTask(c, s, task, fetch);
  }

  /** Only the section after a successful fetch stores; the mutex changes hands where the code says. */
  lemma AdvanceUsesLock<K, T>(c: Config<K, T>, task: Task<K, T>, current: Snapshot<K>, now: nat, fetch: Option<K>)
    ensures var e := Advance(c, task, current, now, fetch);
            && (e.stored.Some? <==> task.pc.Fetched?)
            && (e.lock == Take <==> task.pc.AwaitLock?) && (e.lock == Release <==> task.pc.Unlock?)
            && (e.lock == Keep ==> HoldsLock(e.task.pc) == HoldsLock(task.pc))
            && (e.lock == Take ==> HoldsLock(e.task.pc)) && (e.lock == Release ==> !HoldsLock(e.task.pc))
  {
  }

  /** The section that stores a snapshot numbers it next and delivers what the call promised. */
  lemma StoreKeepsTask<K, T>(c: Config<K, T>, s: State<K, T>, s': State<K, T>, task: Task<K, T>, fetch: Option<K>)
    requires TaskInv(c, s, task) && CurrentOk(s) && task.pc.Fetched?
    requires s'.now == s.now && s'.published == s.published + [Snapshot(|s.published|, task.pc.at, task.pc.keys)]
    ensures var e := Advance(c, task, s.Current(), s.now, fetch);
            e.stored == Some(s'.published[|s.published|]) && TaskInv(c, s', e.task)
  {
  }

  lemma InstallKeepsInv<K, T>(c: Config<K, T>, s: State<K, T>, t: nat, e: Effect<K, T>)
    requires Inv(c, s) && t < |s.tasks|
    requires PublishedInv(c, Install(s, t, e)) && TaskInv(c, Install(s, t, e), e.task)
    requires e.stored.Some? ==> s.lock == Some(t)
    requires match e.lock
             case Keep => HoldsLock(e.task.pc) == HoldsLock(s.tasks[t].pc)
             case Take => s.lock == None && HoldsLock(e.task.pc)
             case Release => HoldsLock(s.tasks[t].pc) && !HoldsLock(e.task.pc)
    ensures Inv(c, Install(s, t, e))
  {
    var s' := Install(s, t, e);
    forall u | 0 <= u < |s'.tasks| ensures TaskInv(c, s', s'.tasks[u]) {
      if u != t {
        assert TaskInv(c, s, s.tasks[u]);
        TaskInvIsStable(c, s, s', s.tasks[u]);
      }
    }
  }

  /** The polled task is in order in the state its section leads to. */
  lemma PollKeepsTask<K, T>(c: Config<K, T>, s: State<K, T>, t: nat, fetch: Option<K>)
    requires Inv(c, s) && s.published != [] && CanPoll(s, t)
    ensures var e := Advance(c, s.tasks[t], s.Current(), s.now, fetch);
            TaskInv(c, Install(s, t, e), e.task) && PublishedInv(c, Install(s, t, e))
  {
    var task := s.tasks[t];
    var e := Advance(c, task, s.Current(), s.now, fetch);
    assert TaskInv(c, s, task) && CurrentOk(s);
    AdvanceUsesLock(c, task, s.Current(), s.now, fetch);
    if task.pc.Fetched? {
      StoreKeepsTask(c, s, Install(s, t, e), task, fetch);
    } else {
      AdvanceKeepsTask(c, s, task, fetch);
      TaskInvIsStable(c, s, Install(s, t, e), e.task);
    }
  }

  lemma PollKeepsInv<K, T>(c: Config<K, T>, s: State<K, T>, t: nat, fetch: Option<K>)
    requires Inv(c, s) && s.published != [] && CanPoll(s, t)
    ensures Inv(c, Apply(c, s, Poll(t, fetch)))
  {
    PollKeepsTask(c, s, t, fetch);
    AdvanceUsesLock(c, s.tasks[t], s.Current(), s.now, fetch);
    InstallKeepsInv(c, s, t, Advance(c, s.tasks[t], s.Current(), s.now, fetch));
  }

  lemma DropKeepsInv<K, T>(c: Config<K, T>, s: State<K, T>, t: nat)
    requires Inv(c, s) && s.published != [] && CanDrop(s, t)
    ensures Inv(c, Apply(c, s, Drop(t)))
  {
    assert TaskInv(c, s, s.tasks[t]);
    InstallKeepsInv(c, s, t, Abandon(s.tasks[t]));
  }

  lemma StepKeepsInv<K, T>(c: Config<K, T>, s: State<K, T>, step: Step<K, T>)
    requires Inv(c, s) && Enabled(c, s, step)
    ensures Inv(c, Apply(c, s, step)) && Extends(s, Apply(c, s, step))
  {
    var s' := Apply(c, s, step);
    match step
    case Poll(t, fetch) => PollKeepsInv(c, s, t, fetch);
    case Drop(t) => DropKeepsInv(c, s, t);
    case _ =>
      forall u | 0 <= u < |s'.tasks| ensures TaskInv(c, s', s'.tasks[u]) {
        if u < |s.tasks| {
          assert TaskInv(c, s, s.tasks[u]);
          TaskInvIsStable(c, s, s', s.tasks[u]);
        }
      }
  }
}
