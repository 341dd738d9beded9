/**
 What the API-token and Basic mechanisms share: answer a request from the cache, or ask a remote party,
 convert the answer and cache it. Any number of requests are in progress at once over one cache; the
 remote party may answer anything the configuration admits, take any time, or fail.
 */
module CachedExchanging {
  import opened Wrappers
  import opened CredentialCaching
  import opened SharedCaching

  /** What the remote party produced for a request: the principal, the lifetime reported with it, the
      moment that lifetime counts from, and the evidence it was converted from. */
  datatype Production<S, U> = Production(user: U, expiresIn: Option<nat>, countedFrom: nat, evidence: S)

  /** `admits` says which productions a request can get, `fails` which errors. */
  datatype Exchange<!R, !K, !S, !U, !E> = Exchange(
    keyOf: R -> K, cache: CacheConfig, admits: (R, Production<S, U>) -> bool, fails: (R, E) -> bool)

  datatype Answer<U, E> = Hit(user: U, at: nat) | Fetched(user: U) | Refused(error: E) | Dropped

  /** The result a finished request returns; a dropped one returns nothing. */
  function AnswerOf<U, E>(a: Answer<U, E>): Option<Result<U, E>> {
    match a
    case Hit(u, _) => Some(Ok(u))
    case Fetched(u) => Some(Ok(u))
    case Refused(e) => Some(Err(e))
    case Dropped => None
  }

  datatype Pc<S, U, E> =
    | Start
    | WillGet(tick: nat)
    | Asking
    | Converted(p: Production<S, U>)
    | WillInsert(p: Production<S, U>, tick: nat)
    | Done(answer: Answer<U, E>)

  datatype Task<R, S, U, E> = Task(request: R, pc: Pc<S, U, E>)

  /** `produced` remembers what was produced for whom. */
  datatype State<R, K, S, U, E> = State(
    now: nat, shared: Shared<K, U>, tasks: seq<Task<R, S, U, E>>, produced: seq<(R, Production<S, U>)>)

  datatype Step<R, S, U, E> =
    | Elapse(dt: nat)
    | Arrive(request: R)
    | DrawForGet(t: nat)
    | Get(t: nat)
    | Produce(t: nat, p: Production<S, U>)
    | Fail(t: nat, error: E)
    | DrawForInsert(t: nat)
    | Insert(t: nat, dt: nat)  // the clock is read again after pruning
    | Drop(t: nat)

  ghost predicate Enabled<R, K, S, U, E>(x: Exchange<R, K, S, U, E>, s: State<R, K, S, U, E>, step: Step<R, S, U, E>) {
    match step
    case Elapse(_) => true
    case Arrive(_) => true
    case DrawForGet(t) => t < |s.tasks| && s.tasks[t].pc.Start? && Legal(x.cache, s.shared, DrawTick)
    case Get(t) => t < |s.tasks| && s.tasks[t].pc.WillGet? && s.tasks[t].pc.tick in s.shared.drawn
    case Produce(t, p) =>
      t < |s.tasks| && s.tasks[t].pc.Asking? && x.admits(s.tasks[t].request, p) && p.countedFrom <= s.now
    case Fail(t, error) => t < |s.tasks| && s.tasks[t].pc.Asking? && x.fails(s.tasks[t].request, error)
    case DrawForInsert(t) => t < |s.tasks| && s.tasks[t].pc.Converted? && Legal(x.cache, s.shared, DrawTick)
    case Insert(t, _) =>
      t < |s.tasks| && s.tasks[t].pc.WillInsert? && s.tasks[t].pc.tick in s.shared.drawn
      && Caches(x.cache, s.tasks[t].pc.p.expiresIn)
    case Drop(t) => t < |s.tasks| && s.tasks[t].pc.Asking?
  }

  /** What a step does to the cache. */
  ghost function EventOf<R, K, S, U, E>(
    x: Exchange<R, K, S, U, E>, s: State<R, K, S, U, E>, step: Step<R, S, U, E>): (e: Option<Event<K, U>>)
    requires Enabled(x, s, step)
    ensures e.Some? ==> Legal(x.cache, s.shared, e.value)
  {
    match step
    case DrawForGet(_) => Some(DrawTick)
    case DrawForInsert(_) => Some(DrawTick)
    case Get(t) => Some(RunGet(x.keyOf(s.tasks[t].request), s.tasks[t].pc.tick, s.now))
    case Insert(t, dt) =>
      var p := s.tasks[t].pc.p;
      Some(RunInsert(
        x.keyOf(s.tasks[t].request), p.user, Ttl(x.cache, p.expiresIn), s.tasks[t].pc.tick, s.now, s.now + dt))
    case _ => None
  }

  ghost function SharedAfter<R, K, S, U, E>(
    x: Exchange<R, K, S, U, E>, s: State<R, K, S, U, E>, step: Step<R, S, U, E>): Shared<K, U>
    requires Enabled(x, s, step)
  {
    match EventOf(x, s, step)
    case None => s.shared
    case Some(e) => Occur(x.cache, s.shared, e)
  }

  /** Where a step leaves its request. */
  ghost function PcAfter<R, K, S, U, E>(
    x: Exchange<R, K, S, U, E>, s: State<R, K, S, U, E>, step: Step<R, S, U, E>): Pc<S, U, E>
    requires Enabled(x, s, step) && !step.Elapse? && !step.Arrive?
  {
    match step
    case DrawForGet(t) => WillGet(s.shared.clock)
    case Get(t) =>
      var found := Lookup(s.shared.entries, x.keyOf(s.tasks[t].request), s.tasks[t].pc.tick, s.now).1;
      if found.Some? then Done(Hit(found.value, s.now)) else Asking
    case Produce(t, p) => if Caches(x.cache, p.expiresIn) then Converted(p) else Done(Fetched(p.user))
    case Fail(t, error) => Done(Refused(error))
    case DrawForInsert(t) => WillInsert(s.tasks[t].pc.p, s.shared.clock)
    case Insert(t, dt) => Done(Fetched(s.tasks[t].pc.p.user))
    case Drop(t) => Done(Dropped)
  }

  ghost function Take<R, K, S, U, E>(
    x: Exchange<R, K, S, U, E>, s: State<R, K, S, U, E>, step: Step<R, S, U, E>): State<R, K, S, U, E>
    requires Enabled(x, s, step)
  {
    State(
      match step case Elapse(dt) => s.now + dt case Insert(_, dt) => s.now + dt case _ => s.now,
      SharedAfter(x, s, step),
      match step
      case Elapse(_) => s.tasks
      case Arrive(request) => s.tasks + [Task(request, Start)]
      case _ => s.tasks[step.t := s.tasks[step.t].(pc := PcAfter(x, s, step))],
      if step.Produce? then s.produced + [(s.tasks[step.t].request, step.p)] else s.produced)
  }

  ghost predicate Follows<R(!new), K(!new), S(!new), U(!new), E(!new)>(
    x: Exchange<R, K, S, U, E>, s: State<R, K, S, U, E>, s': State<R, K, S, U, E>)
  {
    exists step: Step<R, S, U, E> :: Enabled(x, s, step) && s' == Take(x, s, step)
  }

  ghost predicate IsRun<R(!new), K(!new), S(!new), U(!new), E(!new)>(
    x: Exchange<R, K, S, U, E>, run: seq<State<R, K, S, U, E>>)
  {
    && run != [] && run[0].shared == Empty() && run[0].tasks == [] && run[0].produced == []
    && forall i :: 0 <= i < |run| - 1 ==> Follows(x, run[i], run[i + 1])
  }

  // ---------- the invariant ----------

  /** A stored value was produced for a request with that key, and stored for the lifetime produced with it. */
  ghost predicate Sourced<R, K, S, U, E>(
    x: Exchange<R, K, S, U, E>, produced: seq<(R, Production<S, U>)>, ins: Insertion<K, U>)
  {
    exists made :: made in produced && Explains(x, made.0, made.1, ins)
  }

  ghost predicate Explains<R, K, S, U, E>(x: Exchange<R, K, S, U, E>, r: R, p: Production<S, U>, ins: Insertion<K, U>) {
    && x.keyOf(r) == ins.key && p.user == ins.value && x.admits(r, p)
    && p.countedFrom <= ins.at && Caches(x.cache, p.expiresIn) && ins.ttl == Ttl(x.cache, p.expiresIn)
  }

  /** The hit on `u` at `at` for `r` goes back to one production and one insertion. */
  ghost predicate HitExplained<R, K, S, U, E>(
    x: Exchange<R, K, S, U, E>, produced: seq<(R, Production<S, U>)>, r: R, u: U, at: nat)
  {
    exists made, stored: nat :: made in produced && HitBy(x, produced, r, u, at, made, stored)
  }

  ghost predicate HitBy<R, K, S, U, E>(
    x: Exchange<R, K, S, U, E>, produced: seq<(R, Production<S, U>)>, r: R, u: U, at: nat,
    made: (R, Production<S, U>), stored: nat)
  {
    && made in produced && x.admits(made.0, made.1) && x.keyOf(made.0) == x.keyOf(r) && made.1.user == u
    && made.1.countedFrom <= stored <= at && Caches(x.cache, made.1.expiresIn)
    && at < stored + Ttl(x.cache, made.1.expiresIn)
  }

  ghost predicate TaskInv<R, K, S, U, E>(x: Exchange<R, K, S, U, E>, s: State<R, K, S, U, E>, task: Task<R, S, U, E>) {
    match task.pc
    case Start => true
    case WillGet(_) => true
    case Asking => true
    case Converted(p) => (task.request, p) in s.produced && x.admits(task.request, p) && p.countedFrom <= s.now
    case WillInsert(p, _) => (task.request, p) in s.produced && x.admits(task.request, p) && p.countedFrom <= s.now
    case Done(Hit(u, at)) => HitExplained(x, s.produced, task.request, u, at)
    case Done(Fetched(u)) =>
      exists made :: made in s.produced && made.0 == task.request && x.admits(made.0, made.1) && made.1.user == u
    case Done(Refused(error)) => x.fails(task.request, error)
    case Done(Dropped) => true
  }

  ghost predicate Inv<R, K, S, U, E>(x: Exchange<R, K, S, U, E>, s: State<R, K, S, U, E>) {
    && SharedInv(x.cache, s.shared)
    && (forall ins :: ins in s.shared.log ==> Sourced(x, s.produced, ins) && ins.at <= s.now)
    && (forall t :: 0 <= t < |s.tasks| ==> TaskInv(x, s, s.tasks[t]))
  }

  lemma TaskInvIsStable<R, K, S, U, E>(
    x: Exchange<R, K, S, U, E>, s: State<R, K, S, U, E>, s': State<R, K, S, U, E>, task: Task<R, S, U, E>)
    requires TaskInv(x, s, task) && s.produced <= s'.produced && s.now <= s'.now
    ensures TaskInv(x, s', task)
  {
    match task.pc
    case Done(Hit(u, at)) =>
      var made, stored: nat :| made in s.produced && HitBy(x, s.produced, task.request, u, at, made, stored);
      assert HitBy(x, s'.produced, task.request, u, at, made, stored);
    case Done(Fetched(u)) =>
      var made :| made in s.produced && made.0 == task.request && x.admits(made.0, made.1) && made.1.user == u;
      assert made in s'.produced;
    case _ =>
  }

  /** A hit goes back to a production for a request with the same key. */
  lemma HitKeepsTask<R, K, S, U, E>(x: Exchange<R, K, S, U, E>, s: State<R, K, S, U, E>, t: nat)
    requires Inv(x, s) && Enabled(x, s, Step.Get(t))
    ensures TaskInv(x, s, Take(x, s, Step.Get(t)).tasks[t])
  {
    var r, tick := s.tasks[t].request, s.tasks[t].pc.tick;
    if Lookup(s.shared.entries, x.keyOf(r), tick, s.now).1.Some? {
      var ins := HitWasStored(x.cache, s.shared, x.keyOf(r), tick, s.now);
      assert Sourced(x, s.produced, ins);
      var made :| made in s.produced && Explains(x, made.0, made.1, ins);
      assert HitBy(x, s.produced, r, ins.value, s.now, made, ins.at);
    }
  }

  lemma OwnTaskKept<R, K, S, U, E>(x: Exchange<R, K, S, U, E>, s: State<R, K, S, U, E>, step: Step<R, S, U, E>)
    requires Inv(x, s) && Enabled(x, s, step) && !step.Elapse? && !step.Arrive?
    ensures TaskInv(x, Take(x, s, step), Take(x, s, step).tasks[step.t])
  {
    var s' := Take(x, s, step);
    assert TaskInv(x, s, s.tasks[step.t]);
    match step
    case Get(t) =>
      HitKeepsTask(x, s, t);
    case Produce(t, p) =>
      assert (s.tasks[t].request, p) in s'.produced;
    case Insert(t, _) =>
      assert (s.tasks[t].request, s.tasks[t].pc.p) in s'.produced;
    case _ =>
  }

  lemma CacheKept<R, K, S, U, E>(x: Exchange<R, K, S, U, E>, s: State<R, K, S, U, E>, step: Step<R, S, U, E>)
    requires SharedInv(x.cache, s.shared) && Enabled(x, s, step)
    ensures SharedInv(x.cache, SharedAfter(x, s, step))
  {
    var e := EventOf(x, s, step);
    if e.Some? {
      EventKeepsInv(x.cache, s.shared, e.value);
    }
  }

  /** Only an insert is logged, and it logs what was produced for its own request. */
  lemma LogKept<R, K, S, U, E>(
    x: Exchange<R, K, S, U, E>, s: State<R, K, S, U, E>, step: Step<R, S, U, E>, ins: Insertion<K, U>)
    requires Inv(x, s) && Enabled(x, s, step) && ins in Take(x, s, step).shared.log
    ensures Sourced(x, Take(x, s, step).produced, ins) && ins.at <= Take(x, s, step).now
  {
  }

  lemma StepKeepsInv<R, K, S, U, E>(x: Exchange<R, K, S, U, E>, s: State<R, K, S, U, E>, step: Step<R, S, U, E>)
    requires Inv(x, s) && Enabled(x, s, step)
    ensures Inv(x, Take(x, s, step))
  {
    var s' := Take(x, s, step);
    CacheKept(x, s, step);
    forall ins | ins in s'.shared.log ensures Sourced(x, s'.produced, ins) && ins.at <= s'.now {
      LogKept(x, s, step, ins);
    }
    forall u | 0 <= u < |s'.tasks| ensures TaskInv(x, s', s'.tasks[u]) {
      if !step.Elapse? && !step.Arrive? && u == step.t {
        OwnTaskKept(x, s, step);
      } else if u < |s.tasks| {
        assert TaskInv(x, s, s.tasks[u]);
        TaskInvIsStable(x, s, s', s.tasks[u]);
      }
    }
  }

  /** The step that leads to `run[i]`. */
  lemma StepBefore<R(!new), K(!new), S(!new), U(!new), E(!new)>(
    x: Exchange<R, K, S, U, E>, run: seq<State<R, K, S, U, E>>, i: nat) returns (step: Step<R, S, U, E>)
    requires IsRun(x, run) && 0 < i < |run|
    ensures Enabled(x, run[i - 1], step) && run[i] == Take(x, run[i - 1], step)
  {
    assert Follows(x, run[i - 1], run[i - 1 + 1]);
    step :| Enabled(x, run[i - 1], step) && run[i] == Take(x, run[i - 1], step);
  }

  lemma EmptyHasInv<R, K, S, U, E>(x: Exchange<R, K, S, U, E>, s: State<R, K, S, U, E>)
    requires s.shared == Empty() && s.tasks == []
    ensures Inv(x, s)
  {
  }

  lemma {:induction false} RunKeepsInv<R(!new), K(!new), S(!new), U(!new), E(!new)>(
    x: Exchange<R, K, S, U, E>, run: seq<State<R, K, S, U, E>>, i: nat)
    requires IsRun(x, run) && i < |run|
    ensures Inv(x, run[i])
  {
    if i == 0 {
      EmptyHasInv(x, run[0]);
    } else {
      RunKeepsInv(x, run, i - 1);
      var step := StepBefore(x, run, i);
      StepKeepsInv(x, run[i - 1], step);
    }
  }

  /** The step that made a finished request a hit: the `get` of its own, after which nothing about it changed. */
  lemma {:induction false} HitMoment<R(!new), K(!new), S(!new), U(!new), E(!new)>(
    x: Exchange<R, K, S, U, E>, run: seq<State<R, K, S, U, E>>, i: nat, t: nat) returns (j: nat)
    requires IsRun(x, run) && i < |run| && IsHit(run[i], t)
    ensures j + 1 <= i && t < |run[j].tasks| && run[j].tasks[t].pc.WillGet?
    ensures IsHit(run[j + 1], t) && run[j + 1].tasks[t] == run[i].tasks[t]
    ensures run[j + 1].produced == run[j].produced <= run[i].produced
  {
    assert i > 0;
    var step := StepBefore(x, run, i);
    if step.Get? && step.t == t {
      j := i - 1;
    } else {
      j := HitMoment(x, run, i - 1, t);
    }
  }

  ghost predicate IsHit<R, K, S, U, E>(s: State<R, K, S, U, E>, t: nat) {
    t < |s.tasks| && s.tasks[t].pc.Done? && s.tasks[t].pc.answer.Hit?
  }

  /** Every hit, in every interleaving, was produced for a request with the same key before it came
      (`run[j]` is the state in which it looked), and comes less than the granted time to live after it was
      stored. */
  lemma HitIsExplained<R(!new), K(!new), S(!new), U(!new), E(!new)>(
    x: Exchange<R, K, S, U, E>, run: seq<State<R, K, S, U, E>>, i: nat, t: nat)
    returns (r: R, p: Production<S, U>, stored: nat, j: nat)
    requires IsRun(x, run) && i < |run| && IsHit(run[i], t)
    ensures j < i && t < |run[j].tasks| && run[j].tasks[t].pc.WillGet? && (r, p) in run[i].produced
    ensures var Hit(user, at) := run[i].tasks[t].pc.answer;
            HitBy(x, run[j].produced, run[i].tasks[t].request, user, at, (r, p), stored)
  {
    j := HitMoment(x, run, i, t);
    var s, task := run[j + 1], run[i].tasks[t];
    RunKeepsInv(x, run, j + 1);
    assert TaskInv(x, s, s.tasks[t]);
    var made, when: nat :| made in s.produced
      && HitBy(x, s.produced, task.request, task.pc.answer.user, task.pc.answer.at, made, when);
    r, p, stored := made.0, made.1, when;
    assert made == (r, p);
  }

  /** The margin absorbs the latency: if storing happened within the margin of the moment the reported
      lifetime counts from, no hit comes at or after the end of that lifetime. */
  lemma MarginAbsorbsLatency<R(!new), K(!new), S(!new), U(!new), E(!new)>(
    x: Exchange<R, K, S, U, E>, run: seq<State<R, K, S, U, E>>, i: nat, t: nat)
    returns (r: R, p: Production<S, U>, stored: nat, j: nat)
    requires IsRun(x, run) && i < |run| && IsHit(run[i], t)
    ensures j < i && t < |run[j].tasks| && run[j].tasks[t].pc.WillGet? && (r, p) in run[i].produced
    ensures var Hit(user, at) := run[i].tasks[t].pc.answer;
            && HitBy(x, run[j].produced, run[i].tasks[t].request, user, at, (r, p), stored)
            && (p.expiresIn.Some? && stored <= p.countedFrom + x.cache.refreshMargin ==>
                 at < p.countedFrom + p.expiresIn.value)
  {
    r, p, stored, j := HitIsExplained(x, run, i, t);
  }

  // ---------- a request that stores, and one that hits ----------

  lemma StepFollows<R(!new), K(!new), S(!new), U(!new), E(!new)>(
    x: Exchange<R, K, S, U, E>, s: State<R, K, S, U, E>, step: Step<R, S, U, E>, s': State<R, K, S, U, E>)
    requires Enabled(x, s, step) && Take(x, s, step) == s'
    ensures Follows(x, s, s')
  {
  }

  /** The first request has an answer to store. */
  ghost function Answered<R, K, S, U, E>(r: R, p: Production<S, U>, now: nat): State<R, K, S, U, E> {
    State(now, Shared(map[], 1, {}, []), [Task(r, Converted(p))], [(r, p)])
  }

  /** And has stored it. */
  ghost function HasStored<R, K, S, U, E>(
    x: Exchange<R, K, S, U, E>, r: R, p: Production<S, U>, now: nat): State<R, K, S, U, E>
  {
    var key, ttl := x.keyOf(r), Ttl(x.cache, p.expiresIn);
    State(now, Shared(map[key := Entry(p.user, now + ttl, 1)], 2, {}, [Insertion(key, p.user, now, ttl)]),
          [Task(r, Done(Fetched(p.user)))], [(r, p)])
  }

  /** It asks an empty cache in vain, and then the remote party. */
  lemma AskFirst<R(!new), K(!new), S(!new), U(!new), E(!new)>(
    x: Exchange<R, K, S, U, E>, r: R, p: Production<S, U>, now: nat) returns (run: seq<State<R, K, S, U, E>>)
    requires Caches(x.cache, p.expiresIn) && x.admits(r, p) && p.countedFrom <= now
    ensures |run| == 5 && run[0] == State(now, Empty(), [], []) && run[4] == Answered(r, p, now)
    ensures forall i :: 0 <= i < 4 ==> Follows(x, run[i], run[i + 1])
  {
    var s0: State<R, K, S, U, E> := State(now, Empty(), [], []);
    var s1: State<R, K, S, U, E> := s0.(tasks := [Task(r, Start)]);
    var s2: State<R, K, S, U, E> := State(now, Shared(map[], 1, {0}, []), [Task(r, WillGet(0))], []);
    var s3: State<R, K, S, U, E> := State(now, Shared(map[], 1, {}, []), [Task(r, Asking)], []);
    StepFollows(x, s0, Arrive(r), s1);
    StepFollows(x, s1, DrawForGet(0), s2);
    StepFollows(x, s2, Step.Get(0), s3);
    StepFollows(x, s3, Produce(0, p), Answered(r, p, now));
    run := [s0, s1, s2, s3, Answered(r, p, now)];
  }

  /** It stores the answer. */
  lemma StoreFirst<R(!new), K(!new), S(!new), U(!new), E(!new)>(
    x: Exchange<R, K, S, U, E>, r: R, p: Production<S, U>, now: nat) returns (run: seq<State<R, K, S, U, E>>)
    requires Caches(x.cache, p.expiresIn)
    ensures |run| == 3 && run[0] == Answered(r, p, now) && run[2] == HasStored(x, r, p, now)
    ensures Follows(x, run[0], run[1]) && Follows(x, run[1], run[2])
  {
    var s: State<R, K, S, U, E> := State(now, Shared(map[], 2, {1}, []), [Task(r, WillInsert(p, 1))], [(r, p)]);
    StepFollows(x, Answered(r, p, now), DrawForInsert(0), s);
    StepFollows(x, s, Step.Insert(0, 0), HasStored(x, r, p, now));
    run := [Answered(r, p, now), s, HasStored(x, r, p, now)];
  }

  /** A second request arrives and finds it. */
  lemma FindSecond<R(!new), K(!new), S(!new), U(!new), E(!new)>(
    x: Exchange<R, K, S, U, E>, r: R, p: Production<S, U>, now: nat) returns (run: seq<State<R, K, S, U, E>>)
    requires Caches(x.cache, p.expiresIn)
    ensures |run| == 4 && run[0] == HasStored(x, r, p, now)
    ensures forall i :: 0 <= i < 3 ==> Follows(x, run[i], run[i + 1])
    ensures |run[3].tasks| == 2 && run[3].tasks[1] == Task(r, Done(Hit(p.user, now))) && run[3].produced == [(r, p)]
  {
    var s0 := HasStored(x, r, p, now);
    var done := s0.tasks[0];
    var s1 := s0.(tasks := [done, Task(r, Start)]);
    var s2 := s1.(shared := s0.shared.(clock := 3, drawn := {2}), tasks := [done, Task(r, WillGet(2))]);
    var s3 := Take(x, s2, Step.Get(1));
    StepFollows(x, s0, Arrive(r), s1);
    StepFollows(x, s1, DrawForGet(1), s2);
    StepFollows(x, s2, Step.Get(1), s3);
    run := [s0, s1, s2, s3];
  }

  /** Whatever can be produced and is cached can be hit, at the very instant it is stored. */
  lemma StoredThenHit<R(!new), K(!new), S(!new), U(!new), E(!new)>(
    x: Exchange<R, K, S, U, E>, r: R, p: Production<S, U>, now: nat) returns (run: seq<State<R, K, S, U, E>>)
    requires Caches(x.cache, p.expiresIn) && x.admits(r, p) && p.countedFrom <= now
    ensures |run| == 10 && IsRun(x, run) && run[9].produced == [(r, p)]
    ensures |run[9].tasks| == 2 && run[9].tasks[1] == Task(r, Done(Hit(p.user, now)))
  {
    var first := AskFirst(x, r, p, now);
    var second := StoreFirst(x, r, p, now);
    var third := FindSecond(x, r, p, now);
    run := first + second[1..] + third[1..];
    forall i | 0 <= i < 9 ensures Follows(x, run[i], run[i + 1]) {
      if i < 4 {
        assert run[i] == first[i] && run[i + 1] == first[i + 1];
      } else if i < 6 {
        assert run[i] == second[i - 4] && run[i + 1] == second[i - 4 + 1];
      } else {
        assert run[i] == third[i - 6] && run[i + 1] == third[i - 6 + 1];
      }
    }
  }

  // ---------- one request on its own ----------

  /** When a request reads the clock. */
  datatype Readings = Readings(getAt: nat, pruneAt: nat, storeAt: nat)

  /** The answer to one request nobody interrupts, and the cache after it, when the remote party
      answers `asked`: a principal with the lifetime to cache it for, or an error. */
  ghost function AnswerAlone<K, U, E>(
    cfg: CacheConfig, c: Cache<K, U>, key: K, asked: Result<(U, Option<nat>), E>, at: Readings)
    : (Result<U, E>, Cache<K, U>)
  {
    var (c', found) := CredentialCaching.Apply(cfg, c, Op.Get(key, at.getAt));
    match found
    case Some(u) => (Ok(u), c')
    case None =>
      match asked
      case Err(e) => (Err(e), c')
      case Ok((u, expiresIn)) =>
        (Ok(u), CredentialCaching.Apply(cfg, c', Op.Insert(key, u, expiresIn, at.pruneAt, at.storeAt)).0)
  }

  // ---------- the request on its own is a run of the exchange ----------

  /** The steps lead from `s` to `s'`. */
  ghost predicate Leads<R, K, S, U, E>(
    x: Exchange<R, K, S, U, E>, s: State<R, K, S, U, E>, steps: seq<Step<R, S, U, E>>, s': State<R, K, S, U, E>)
    decreases |steps|
  {
    if steps == [] then s == s'
    else Enabled(x, s, steps[0]) && Leads(x, Take(x, s, steps[0]), steps[1..], s')
  }

  lemma {:induction false} LeadsOn<R, K, S, U, E>(
    x: Exchange<R, K, S, U, E>, s: State<R, K, S, U, E>, steps: seq<Step<R, S, U, E>>, s': State<R, K, S, U, E>,
    step: Step<R, S, U, E>)
    requires Leads(x, s, steps, s') && Enabled(x, s', step)
    ensures Leads(x, s, steps + [step], Take(x, s', step))
    decreases |steps|
  {
    if steps == [] {
      assert Leads(x, Take(x, s, step), [], Take(x, s', step));
      assert (steps + [step])[1..] == [];
    } else {
      LeadsOn(x, Take(x, s, steps[0]), steps[1..], s', step);
      assert (steps + [step])[1..] == steps[1..] + [step];
    }
  }

  lemma OneMore<R, K, S, U, E>(
    x: Exchange<R, K, S, U, E>, s0: State<R, K, S, U, E>, steps: seq<Step<R, S, U, E>>, s: State<R, K, S, U, E>,
    step: Step<R, S, U, E>)
    returns (steps': seq<Step<R, S, U, E>>, s': State<R, K, S, U, E>)
    requires Leads(x, s0, steps, s) && Enabled(x, s, step)
    ensures Leads(x, s0, steps', s') && s' == Take(x, s, step)
  {
    LeadsOn(x, s0, steps, s, step);
    steps', s' := steps + [step], Take(x, s, step);
  }

  lemma WaitAlone<R, K, S, U, E>(
    x: Exchange<R, K, S, U, E>, s0: State<R, K, S, U, E>, steps: seq<Step<R, S, U, E>>, s: State<R, K, S, U, E>,
    until: nat)
    returns (steps': seq<Step<R, S, U, E>>, s': State<R, K, S, U, E>)
    requires Leads(x, s0, steps, s) && s.now <= until
    ensures Leads(x, s0, steps', s') && s' == s.(now := until)
  {
    steps', s' := OneMore(x, s0, steps, s, Elapse(until - s.now));
  }

  /** The sequential cache that the shared one is when nobody else uses it. */
  ghost function CacheOf<K, V>(s: Shared<K, V>): Cache<K, V> {
    Cache(s.entries, s.clock)
  }

  /** From the start to the answer of the cache. */
  lemma LookUpAlone<R, K, S, U, E>(x: Exchange<R, K, S, U, E>, s: State<R, K, S, U, E>, t: nat, at: nat)
    returns (steps: seq<Step<R, S, U, E>>, s': State<R, K, S, U, E>)
    requires SharedInv(x.cache, s.shared) && s.shared.clock + 1 < TWO_TO_THE_64 && s.now <= at
    requires t < |s.tasks| && s.tasks[t].pc.Start?
    ensures Leads(x, s, steps, s') && SharedInv(x.cache, s'.shared) && s'.now == at
        && s'.shared.clock == s.shared.clock + 1
    ensures |s'.tasks| == |s.tasks| && s'.tasks[t].request == s.tasks[t].request
    ensures var (c', found) :=
        CredentialCaching.Apply(x.cache, CacheOf(s.shared), Op.Get(x.keyOf(s.tasks[t].request), at));
            CacheOf(s'.shared) == c' && s'.tasks[t].pc == if found.Some? then Done(Hit(found.value, at)) else Asking
  {
    UninterruptedGet(x.cache, s.shared, x.keyOf(s.tasks[t].request), at);
    var s1, s2;
    steps, s1 := WaitAlone(x, s, [], s, at);
    steps, s2 := OneMore(x, s, steps, s1, DrawForGet(t));
    CacheKept(x, s1, DrawForGet(t));
    steps, s' := OneMore(x, s, steps, s2, Step.Get(t));
    CacheKept(x, s2, Step.Get(t));
  }

  /** A whole `insert`. */
  lemma StoreAlone<R, K, S, U, E>(
    x: Exchange<R, K, S, U, E>, s0: State<R, K, S, U, E>, steps0: seq<Step<R, S, U, E>>, s: State<R, K, S, U, E>,
    t: nat, storeAt: nat)
    returns (steps: seq<Step<R, S, U, E>>, s': State<R, K, S, U, E>)
    requires Leads(x, s0, steps0, s) && SharedInv(x.cache, s.shared) && s.shared.clock + 1 < TWO_TO_THE_64
    requires t < |s.tasks| && s.tasks[t].pc.Converted? && Caches(x.cache, s.tasks[t].pc.p.expiresIn) && s.now <= storeAt
    ensures Leads(x, s0, steps, s') && |s'.tasks| == |s.tasks| && s'.tasks[t].pc == Done(Fetched(s.tasks[t].pc.p.user))
    ensures var p := s.tasks[t].pc.p;
            CacheOf(s'.shared)
            == CredentialCaching.Apply(x.cache, CacheOf(s.shared),
                 Op.Insert(x.keyOf(s.tasks[t].request), p.user, p.expiresIn, s.now, storeAt)).0
  {
    var p := s.tasks[t].pc.p;
    UninterruptedInsert(x.cache, s.shared, x.keyOf(s.tasks[t].request), p.user, p.expiresIn, s.now, storeAt);
    var s1;
    steps, s1 := DrawAlone(x, s0, steps0, s, t);
    steps, s' := InsertAlone(x, s0, steps, s1, t, storeAt);
  }

  lemma DrawAlone<R, K, S, U, E>(
    x: Exchange<R, K, S, U, E>, s0: State<R, K, S, U, E>, steps0: seq<Step<R, S, U, E>>, s: State<R, K, S, U, E>,
    t: nat)
    returns (steps: seq<Step<R, S, U, E>>, s': State<R, K, S, U, E>)
    requires Leads(x, s0, steps0, s) && Legal(x.cache, s.shared, DrawTick)
    requires t < |s.tasks| && s.tasks[t].pc.Converted?
    ensures Leads(x, s0, steps, s') && |s'.tasks| == |s.tasks| && s'.now == s.now
    ensures s'.tasks[t] == s.tasks[t].(pc := WillInsert(s.tasks[t].pc.p, s.shared.clock))
    ensures s'.shared == Occur(x.cache, s.shared, DrawTick)
  {
    steps, s' := OneMore(x, s0, steps0, s, DrawForInsert(t));
  }

  lemma InsertAlone<R, K, S, U, E>(
    x: Exchange<R, K, S, U, E>, s0: State<R, K, S, U, E>, steps0: seq<Step<R, S, U, E>>, s: State<R, K, S, U, E>,
    t: nat, storeAt: nat)
    returns (steps: seq<Step<R, S, U, E>>, s': State<R, K, S, U, E>)
    requires Leads(x, s0, steps0, s) && s.now <= storeAt
    requires t < |s.tasks| && s.tasks[t].pc.WillInsert? && Enabled(x, s, Step.Insert(t, storeAt - s.now))
    ensures Leads(x, s0, steps, s') && |s'.tasks| == |s.tasks| && s'.tasks[t].pc == Done(Fetched(s.tasks[t].pc.p.user))
    ensures var p := s.tasks[t].pc.p;
            s'.shared == Occur(x.cache, s.shared, RunInsert(
              x.keyOf(s.tasks[t].request), p.user, Ttl(x.cache, p.expiresIn), s.tasks[t].pc.tick, s.now, storeAt))
  {
    steps, s' := OneMore(x, s0, steps0, s, Step.Insert(t, storeAt - s.now));
  }

  /** From the remote party's answer to the end. */
  lemma ConcludeAlone<R, K, S, U, E>(
    x: Exchange<R, K, S, U, E>, s0: State<R, K, S, U, E>, steps0: seq<Step<R, S, U, E>>, s: State<R, K, S, U, E>,
    t: nat,
    p: Production<S, U>, storeAt: nat)
    returns (steps: seq<Step<R, S, U, E>>, s': State<R, K, S, U, E>)
    requires Leads(x, s0, steps0, s) && SharedInv(x.cache, s.shared) && s.shared.clock + 1 < TWO_TO_THE_64
    requires t < |s.tasks| && s.tasks[t].pc.Asking? && s.now <= storeAt
    requires x.admits(s.tasks[t].request, p) && p.countedFrom <= s.now
    ensures Leads(x, s0, steps, s') && |s'.tasks| == |s.tasks| && s'.tasks[t].pc == Done(Fetched(p.user))
    ensures CacheOf(s'.shared)
            == CredentialCaching.Apply(x.cache, CacheOf(s.shared),
                 Op.Insert(x.keyOf(s.tasks[t].request), p.user, p.expiresIn, s.now, storeAt)).0
  {
    var s1;
    steps, s1 := OneMore(x, s0, steps0, s, Produce(t, p));
    s' := s1;
    if Caches(x.cache, p.expiresIn) {
      steps, s' := StoreAlone(x, s0, steps, s1, t, storeAt);
    }
  }

  /** From the question to the end: wait for the answer, then conclude. */
  lemma AskAlone<R, K, S, U, E>(
    x: Exchange<R, K, S, U, E>, s0: State<R, K, S, U, E>, steps0: seq<Step<R, S, U, E>>, s: State<R, K, S, U, E>,
    t: nat,
    asked: Result<Production<S, U>, E>, answeredAt: nat, storeAt: nat)
    returns (steps: seq<Step<R, S, U, E>>, s': State<R, K, S, U, E>)
    requires Leads(x, s0, steps0, s) && SharedInv(x.cache, s.shared) && s.shared.clock + 1 < TWO_TO_THE_64
    requires t < |s.tasks| && s.tasks[t].pc.Asking? && s.now <= answeredAt <= storeAt
    requires Possible(x, s.tasks[t].request, asked, answeredAt)
    ensures Leads(x, s0, steps, s') && |s'.tasks| == |s.tasks|
    ensures asked.Ok? ==>
              && s'.tasks[t].pc == Done(Fetched(asked.value.user))
              && CacheOf(s'.shared) == CredentialCaching.Apply(x.cache, CacheOf(s.shared),
                   Op.Insert(
                     x.keyOf(s.tasks[t].request), asked.value.user, asked.value.expiresIn, answeredAt, storeAt)).0
    ensures asked.Err? ==> s'.tasks[t].pc == Done(Refused(asked.error)) && s'.shared == s.shared
  {
    var s1;
    steps, s1 := WaitAlone(x, s0, steps0, s, answeredAt);
    match asked {
      case Ok(p) => steps, s' := ConcludeAlone(x, s0, steps, s1, t, p, storeAt);
      case Err(e) => steps, s' := OneMore(x, s0, steps, s1, Fail(t, e));
    }
  }

  /** The exchange admits this answer by this time. */
  ghost predicate Possible<R, K, S, U, E>(
    x: Exchange<R, K, S, U, E>, r: R, asked: Result<Production<S, U>, E>, latest: nat)
  {
    match asked case Ok(p) => x.admits(r, p) && p.countedFrom <= latest case Err(e) => x.fails(r, e)
  }

  /** What of the remote party's answer the cache needs to know. */
  function Said<S, U, E>(asked: Result<Production<S, U>, E>): Result<(U, Option<nat>), E> {
    match asked case Ok(p) => Ok((p.user, p.expiresIn)) case Err(e) => Err(e)
  }

  /** A request nobody interrupts is a run of the exchange: with the same clock readings and the same
      answer of the remote party, task `t` ends with the answer and the cache of `AnswerAlone`. */
  lemma AnswerAloneIsARun<R, K, S, U, E>(
    x: Exchange<R, K, S, U, E>, s: State<R, K, S, U, E>, t: nat, asked: Result<Production<S, U>, E>, at: Readings)
    returns (steps: seq<Step<R, S, U, E>>, s': State<R, K, S, U, E>)
    requires SharedInv(x.cache, s.shared) && s.shared.clock + 2 < TWO_TO_THE_64
    requires t < |s.tasks| && s.tasks[t].pc.Start? && s.now <= at.getAt <= at.pruneAt <= at.storeAt
    requires Possible(x, s.tasks[t].request, asked, at.pruneAt)
    ensures Leads(x, s, steps, s') && |s'.tasks| == |s.tasks| && s'.tasks[t].pc.Done?
    ensures var (result, cache') :=
        AnswerAlone(x.cache, CacheOf(s.shared), x.keyOf(s.tasks[t].request), Said(asked), at);
            AnswerOf(s'.tasks[t].pc.answer) == Some(result) && CacheOf(s'.shared) == cache'
  {
    var s1;
    steps, s1 := LookUpAlone(x, s, t, at.getAt);
    s' := s1;
    if s1.tasks[t].pc.Asking? {
      steps, s' := AskAlone(x, s, steps, s1, t, asked, at.pruneAt, at.storeAt);
    }
  }
}
