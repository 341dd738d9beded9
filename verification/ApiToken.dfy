/** API-token authentication: a static list, then the cache, then a validator. */
module ApiTokens {
  import opened Wrappers
  import opened Strings
  import opened AuthTypes
  import opened CredentialCaching
  import opened CacheHistory
  import opened SharedCaching
  import opened CachedExchanging

  datatype IdentityClaims<D> = IdentityClaims(data: D, expiresAt: Option<nat>)

  datatype StaticToken<D> = StaticToken(secret: string, claims: IdentityClaims<D>, scopes: Option<set<string>>)

  predicate Permits<D>(token: StaticToken<D>, scope: Option<string>) {
    match (token.scopes, scope)
    case (None, _) => true
    case (Some(allowed), Some(name)) => name in allowed
    case (Some(_), None) => false
  }

  /** The constant-time comparison, as the equality it decides. */
  predicate Accepts<D>(token: StaticToken<D>, key: string, scope: Option<string>) {
    Permits(token, scope) && token.secret == key
  }

  function FindStatic<D>(tokens: seq<StaticToken<D>>, key: string, scope: Option<string>): Option<StaticToken<D>> {
    if tokens == [] then None
    else if Accepts(tokens[0], key, scope) then Some(tokens[0])
    else FindStatic(tokens[1..], key, scope)
  }

  /** `convert` is the application's `TryFrom`; `hash` stands for BLAKE3; `validator` is the name of the
      fallback, if there is one. */
  datatype Config<!D, !U, !H> = Config(
    prefix: string, tokens: seq<StaticToken<D>>, validator: Option<string>, maxCacheTtl: nat, cache: CacheConfig,
    convert: IdentityClaims<D> -> Option<U>, hash: string -> H)

  /** No expiry reported and an expiry already past both give `None`, which means the fallback lifetime. */
  function CacheTtl<D, U, H>(c: Config<D, U, H>, expiresAt: Option<nat>, now: nat): Option<nat> {
    match expiresAt
    case None => None
    case Some(e) =>
      if e < now then None
      else Some(if e - now <= c.maxCacheTtl then e - now else c.maxCacheTtl)
  }

  /** What reaches the fallback: the key behind the prefix, and the scope's discriminator. */
  datatype ApiRequest = ApiRequest(key: string, scope: Option<string>)

  function CacheKeyOf<D, U, H>(c: Config<D, U, H>, r: ApiRequest): CacheKey<H> {
    KeyFor(c.hash, r.scope, if c.validator.Some? then c.validator.value else "", "", r.key)
  }

  /** Whether the credential concerns this mechanism, and what follows without asking anybody. */
  datatype Triage<D> = NotMine | Static(token: StaticToken<D>) | Rejected | Ask(request: ApiRequest)

  function Classify<D, U, H>(c: Config<D, U, H>, credential: Credential, scope: Option<string>): Triage<D> {
    match credential
    case Bearer(token) =>
      (match StripPrefix(token, c.prefix)
       case None => NotMine
       case Some(key) =>
         match FindStatic(c.tokens, key, scope)
         case Some(t) => Static(t)
         case None => if c.validator.None? then Rejected else Ask(ApiRequest(key, scope)))
    case _ => NotMine
  }

  // ---------- the object ----------

  /** What the validator answers this call, and when the call reads the clock. */
  datatype Environment<D> = Environment(answer: Result<IdentityClaims<D>, AuthError>, ttlAt: nat, at: Readings)

  /** The validator's answer after conversion, with the lifetime to cache it for. */
  function Asked<D, U, H>(c: Config<D, U, H>, env: Environment<D>): Result<(U, Option<nat>), AuthError> {
    match env.answer
    case Err(e) => Err(e)
    case Ok(claims) =>
      match c.convert(claims)
      case None => Err(Internal)
      case Some(u) => Ok((u, CacheTtl(c, claims.expiresAt, env.ttlAt)))
  }

  /** What a listed token is worth. */
  function StaticVerdict<D, U, H>(c: Config<D, U, H>, token: StaticToken<D>): Verdict<U> {
    match c.convert(token.claims) case Some(u) => Authenticated(u) case None => Failed(Internal)
  }

  /** The verdict and the cache after one call. */
  ghost function Verdicts<D, U, H>(
    c: Config<D, U, H>, cache: Cache<CacheKey<H>, U>, credential: Credential, scope: Option<string>,
    env: Environment<D>)
    : (Verdict<U>, Cache<CacheKey<H>, U>)
  {
    match Classify(c, credential, scope)
    case NotMine => (NotApplicable, cache)
    case Static(token) => (StaticVerdict(c, token), cache)
    case Rejected => (Failed(InvalidCredential), cache)
    case Ask(r) =>
      var (result, cache') := AnswerAlone(c.cache, cache, CacheKeyOf(c, r), Asked(c, env), env.at);
      (VerdictOf(result), cache')
  }

  class ApiTokenAuthenticator<D, U, H(==)> {
    const config: Config<D, U, H>
    const cache: CredentialCache<CacheKey<H>, U>

    constructor (config: Config<D, U, H>)
      ensures this.config == config && fresh(cache) && cache.config == config.cache && cache.View() == Cache(map[], 0)
    {
      this.config := config;
      cache := new CredentialCache(config.cache);
    }

    method FindToken(key: string, scope: Option<string>) returns (found: Option<StaticToken<D>>)
      ensures found == FindStatic(config.tokens, key, scope)
    {
      var i := 0;
      while i < |config.tokens|
        invariant 0 <= i <= |config.tokens|
        invariant FindStatic(config.tokens, key, scope) == FindStatic(config.tokens[i..], key, scope)
      {
        if Accepts(config.tokens[i], key, scope) {
          return Some(config.tokens[i]);
        }
        i := i + 1;
      }
      return None;
    }

    method Authenticate(credential: Credential, scope: Option<string>, env: Environment<D>)
      returns (verdict: Verdict<U>)
      requires cache.config == config.cache
      modifies cache
      ensures DistinctUses(old(cache.entries)) ==>
                (verdict, cache.View()) == Verdicts(config, old(cache.View()), credential, scope, env)
      ensures !Classify(config, credential, scope).Ask? ==>
                (verdict, cache.View()) == Verdicts(config, old(cache.View()), credential, scope, env)
    {
      if !credential.Bearer? {
        return NotApplicable;
      }
      var stripped := StripPrefix(credential.token, config.prefix);
      if stripped.None? {
        return NotApplicable;
      }
      var key := stripped.value;
      var matched := FindToken(key, scope);
      if matched.Some? {
        var user := config.convert(matched.value.claims);
        return if user.Some? then Authenticated(user.value) else Failed(Internal);
      }
      if config.validator.None? {
        return Failed(InvalidCredential);
      }
      var cacheKey := KeyFor(config.hash, scope, config.validator.value, "", key);
      var found := cache.Get(cacheKey, env.at.getAt);
      if found.Some? {
        return Authenticated(found.value);
      }
      match env.answer {
        case Err(e) => return Failed(e);
        case Ok(claims) =>
          var ttl := CacheTtl(config, claims.expiresAt, env.ttlAt);
          var user := config.convert(claims);
          if user.None? {
            return Failed(Internal);
          }
          cache.Insert(cacheKey, user.value, ttl, env.at.pruneAt, env.at.storeAt);
          return Authenticated(user.value);
      }
    }
  }

  // ---------- any number of calls at once ----------

  datatype AskError<D> = ByValidator(error: AuthError) | NotConvertible(claims: IdentityClaims<D>)

  type ApiState<D, U, H(==)> = State<ApiRequest, CacheKey<H>, IdentityClaims<D>, U, AskError<D>>

  /** The calls that ask, as an exchange. `answers` says what the validator may answer. */
  ghost function ExchangeFor<D, U, H>(
    c: Config<D, U, H>, answers: (ApiRequest, Result<IdentityClaims<D>, AuthError>) -> bool)
    : Exchange<ApiRequest, CacheKey<H>, IdentityClaims<D>, U, AskError<D>>
  {
    Exchange(
      r => CacheKeyOf(c, r),
      c.cache,
      (r: ApiRequest, p: Production<IdentityClaims<D>, U>) =>
        answers(r, Ok(p.evidence)) && c.convert(p.evidence) == Some(p.user)
        && p.expiresIn == CacheTtl(c, p.evidence.expiresAt, p.countedFrom),
      (r: ApiRequest, e: AskError<D>) =>
        match e
        case ByValidator(error) => answers(r, Err(error))
        case NotConvertible(claims) => answers(r, Ok(claims)) && c.convert(claims) == None)
  }

  /** The validator's answer to one call, as the exchange sees it. */
  function AsProduced<D, U, H>(c: Config<D, U, H>, env: Environment<D>)
    : Result<Production<IdentityClaims<D>, U>, AskError<D>>
  {
    match env.answer
    case Err(e) => Err(ByValidator(e))
    case Ok(claims) =>
      match c.convert(claims)
      case None => Err(NotConvertible(claims))
      case Some(u) => Ok(Production(u, CacheTtl(c, claims.expiresAt, env.ttlAt), env.ttlAt, claims))
  }

  /** The verdict a finished request stands for. */
  function VerdictFor<D, U>(a: Answer<U, AskError<D>>): Verdict<U> {
    match a
    case Hit(u, _) => Authenticated(u)
    case Fetched(u) => Authenticated(u)
    case Refused(ByValidator(e)) => Failed(e)
    case Refused(NotConvertible(_)) => Failed(Internal)
    case Dropped => NotApplicable
  }

  /** A call of the object that asks is a run of the exchange: the same readings and the same answer of the
      validator lead request `t` to the same verdict and the same cache. */
  lemma AuthenticateIsARun<D(!new), U(!new), H(!new)>(
    c: Config<D, U, H>, answers: (ApiRequest, Result<IdentityClaims<D>, AuthError>) -> bool,
    s: ApiState<D, U, H>, t: nat, credential: Credential, scope: Option<string>, env: Environment<D>)
    returns (steps: seq<Step<ApiRequest, IdentityClaims<D>, U, AskError<D>>>, s': ApiState<D, U, H>)
    requires SharedInv(c.cache, s.shared) && s.shared.clock + 2 < TWO_TO_THE_64
    requires t < |s.tasks| && Classify(c, credential, scope) == Ask(s.tasks[t].request) && s.tasks[t].pc.Start?
    requires s.now <= env.at.getAt <= env.at.pruneAt <= env.at.storeAt && env.ttlAt <= env.at.pruneAt
    requires answers(s.tasks[t].request, env.answer)
    ensures Leads(ExchangeFor(c, answers), s, steps, s') && |s'.tasks| == |s.tasks| && s'.tasks[t].pc.Done?
    ensures (VerdictFor(s'.tasks[t].pc.answer), CacheOf(s'.shared))
            == Verdicts(c, CacheOf(s.shared), credential, scope, env)
  {
    steps, s' := AnswerAloneIsARun(ExchangeFor(c, answers), s, t, AsProduced(c, env), env.at);
  }

  /** The digest tells the presented keys apart. */
  ghost predicate NoCollision<D, U, H, S, V, E>(
    c: Config<D, U, H>, s: State<ApiRequest, CacheKey<H>, S, V, E>, key: string)
  {
    forall made :: made in s.produced && c.hash(made.0.key) == c.hash(key) ==> made.0.key == key
  }

  /** The longest any entry may stay. */
  function LongestTtl<D, U, H>(c: Config<D, U, H>): nat {
    if c.maxCacheTtl >= c.cache.fallbackTtl then c.maxCacheTtl else c.cache.fallbackTtl
  }

  /** Every cached answer, in every interleaving, is the conversion of claims the validator had returned
      before, in this run, for the same key and the same scope (`run[j]` is the state in which the call
      looked); it comes before the capped lifetime, less the margin, has passed since it was stored, and
      before the reported expiry if storing took at most the margin. */
  lemma CachedAnswersAreSound<D(!new), U(!new), H(!new)>(
    c: Config<D, U, H>, answers: (ApiRequest, Result<IdentityClaims<D>, AuthError>) -> bool,
    run: seq<ApiState<D, U, H>>, i: nat, t: nat)
    returns (p: Production<IdentityClaims<D>, U>, stored: nat, j: nat)
    requires CachedExchanging.IsRun(ExchangeFor(c, answers), run) && i < |run| && IsHit(run[i], t)
    requires NoCollision(c, run[i], run[i].tasks[t].request.key)
    ensures j < i && t < |run[j].tasks| && run[j].tasks[t].pc.WillGet?
    ensures var r, claims, Hit(user, at) := run[i].tasks[t].request, p.evidence, run[i].tasks[t].pc.answer;
            && (r, p) in run[j].produced && p.user == user
            && answers(r, Ok(claims)) && c.convert(claims) == Some(user)
            && p.countedFrom <= stored <= at
            && at + c.cache.refreshMargin < stored + LongestTtl(c)
            && (claims.expiresAt.Some? && claims.expiresAt.value >= p.countedFrom ==>
                  && at + c.cache.refreshMargin < stored + (claims.expiresAt.value - p.countedFrom)
                  && at + c.cache.refreshMargin < stored + c.maxCacheTtl
                  && (stored <= p.countedFrom + c.cache.refreshMargin ==> at < claims.expiresAt.value))
  {
    var r;
    r, p, stored, j := HitIsExplained(ExchangeFor(c, answers), run, i, t);
    assert (r, p).0.key == run[i].tasks[t].request.key;
    assert r == run[i].tasks[t].request;
  }

  /** The answer a call would get with no cache at all. */
  function CacheFree<D, U, H>(
    c: Config<D, U, H>, validator: ApiRequest -> Result<IdentityClaims<D>, AuthError>, r: ApiRequest)
    : Result<U, AskError<D>>
  {
    match validator(r)
    case Err(e) => Err(ByValidator(e))
    case Ok(claims) =>
      match c.convert(claims)
      case None => Err(NotConvertible(claims))
      case Some(u) => Ok(u)
  }

  ghost function Constantly<D>(validator: ApiRequest -> Result<IdentityClaims<D>, AuthError>)
    : (ApiRequest, Result<IdentityClaims<D>, AuthError>) -> bool
  {
    (r: ApiRequest, answer: Result<IdentityClaims<D>, AuthError>) => answer == validator(r)
  }

  /** A call that went to the validator answers what the validator and the conversion say. */
  lemma AskedAnswersAreTheValidators<D(!new), U(!new), H(!new)>(
    c: Config<D, U, H>, validator: ApiRequest -> Result<IdentityClaims<D>, AuthError>,
    s: ApiState<D, U, H>, task: Task<ApiRequest, IdentityClaims<D>, U, AskError<D>>)
    requires CachedExchanging.TaskInv(ExchangeFor(c, Constantly(validator)), s, task)
    requires task.pc.Done? && (task.pc.answer.Fetched? || task.pc.answer.Refused?)
    ensures AnswerOf(task.pc.answer) == Some(CacheFree(c, validator, task.request))
  {
  }

  /** With a validator that keeps to one answer per key and scope, the cache is invisible: every
      finished call, in every interleaving, answers what it would answer without one. */
  lemma CacheIsTransparent<D(!new), U(!new), H(!new)>(
    c: Config<D, U, H>, validator: ApiRequest -> Result<IdentityClaims<D>, AuthError>,
    run: seq<ApiState<D, U, H>>, i: nat, t: nat)
    requires CachedExchanging.IsRun(ExchangeFor(c, Constantly(validator)), run) && i < |run| && t < |run[i].tasks|
    requires run[i].tasks[t].pc.Done? && !run[i].tasks[t].pc.answer.Dropped?
    requires NoCollision(c, run[i], run[i].tasks[t].request.key)
    ensures AnswerOf(run[i].tasks[t].pc.answer) == Some(CacheFree(c, validator, run[i].tasks[t].request))
  {
    var task := run[i].tasks[t];
    if task.pc.answer.Hit? {
      var p, stored, j := CachedAnswersAreSound(c, Constantly(validator), run, i, t);
    } else {
      RunKeepsInv(ExchangeFor(c, Constantly(validator)), run, i);
      AskedAnswersAreTheValidators(c, validator, run[i], task);
    }
  }

  /** Call `t` of the run is a hit on these claims, their lifetime computed at `computed` and stored within
      the margin. */
  ghost predicate HitsClaims<D(!new), U(!new), H(!new)>(
    c: Config<D, U, H>, answers: (ApiRequest, Result<IdentityClaims<D>, AuthError>) -> bool, claims: IdentityClaims<D>,
    computed: nat, run: seq<ApiState<D, U, H>>, i: nat, t: nat)
  {
    && CachedExchanging.IsRun(ExchangeFor(c, answers), run) && i < |run| && IsHit(run[i], t)
    && exists made, stored: nat :: OnClaims(c, answers, claims, computed, run[i], t, made, stored)
  }

  ghost predicate OnClaims<D(!new), U(!new), H(!new)>(
    c: Config<D, U, H>, answers: (ApiRequest, Result<IdentityClaims<D>, AuthError>) -> bool, claims: IdentityClaims<D>,
    computed: nat, s: ApiState<D, U, H>, t: nat,
    made: (ApiRequest, Production<IdentityClaims<D>, U>), stored: nat)
    requires IsHit(s, t)
  {
    && made.1.evidence == claims && made.1.countedFrom == computed && stored <= computed + c.cache.refreshMargin
    && HitBy(ExchangeFor(c, answers), s.produced, s.tasks[t].request, s.tasks[t].pc.answer.user,
         s.tasks[t].pc.answer.at, made, stored)
  }

  /** No run gives cached claims out at or after their own expiry, when they are stored within the margin,
      exactly if they had not expired when their lifetime was computed, or nothing is cached for the
      fallback lifetime: claims already expired are treated as if they reported no expiry. */
  lemma NoHitAfterExpiryIff<D(!new), U(!new), H(!new)>(
    c: Config<D, U, H>, answers: (ApiRequest, Result<IdentityClaims<D>, AuthError>) -> bool,
    r: ApiRequest, claims: IdentityClaims<D>, computed: nat)
    requires answers(r, Ok(claims)) && c.convert(claims).Some? && claims.expiresAt.Some?
    ensures (forall run: seq<ApiState<D, U, H>>, i: nat, t: nat ::
               HitsClaims(c, answers, claims, computed, run, i, t) ==>
               run[i].tasks[t].pc.answer.at < claims.expiresAt.value)
            <==> computed <= claims.expiresAt.value || !Caches(c.cache, None)
  {
    if claims.expiresAt.value < computed && Caches(c.cache, None) {
      var run := ExpiredHit(c, answers, r, claims, computed);
      assert HitsClaims(c, answers, claims, computed, run, 9, 1);
    }
    forall run: seq<ApiState<D, U, H>>, i: nat, t: nat | HitsClaims(c, answers, claims, computed, run, i, t)
      ensures computed <= claims.expiresAt.value || !Caches(c.cache, None) ==>
                run[i].tasks[t].pc.answer.at < claims.expiresAt.value
    {
      var made, stored: nat :| OnClaims(c, answers, claims, computed, run[i], t, made, stored);
    }
  }

  /** A run that hits claims that had expired before they were stored: one call asks and stores, the next
      finds them, all at the same instant. */
  lemma ExpiredHit<D(!new), U(!new), H(!new)>(
    c: Config<D, U, H>, answers: (ApiRequest, Result<IdentityClaims<D>, AuthError>) -> bool,
    r: ApiRequest, claims: IdentityClaims<D>, now: nat)
    returns (run: seq<ApiState<D, U, H>>)
    requires answers(r, Ok(claims)) && c.convert(claims).Some? && claims.expiresAt.Some?
    requires claims.expiresAt.value < now && Caches(c.cache, None)
    ensures |run| == 10 && HitsClaims(c, answers, claims, now, run, 9, 1)
    ensures run[9].tasks[1].pc.answer.at == now
  {
    var p := Production(c.convert(claims).value, None, now, claims);
    run := StoredThenHit(ExchangeFor(c, answers), r, p, now);
    assert OnClaims(c, answers, claims, now, run[9], 1, (r, p), now);
  }

  // ---------- the static list ----------

  /** Static tokens survive an outage: a key on the list for this scope is answered from the list,
      by the first entry that accepts it, whatever the validator would say and whatever is cached. */
  lemma StaticNeedsNobody<D, U, H>(
    c: Config<D, U, H>, cache: Cache<CacheKey<H>, U>, key: string, scope: Option<string>, i: nat, env: Environment<D>)
    returns (j: nat)
    requires i < |c.tokens| && Accepts(c.tokens[i], key, scope)
    ensures j <= i && Accepts(c.tokens[j], key, scope) && (forall k :: 0 <= k < j ==> !Accepts(c.tokens[k], key, scope))
    ensures Verdicts(c, cache, Bearer(c.prefix + key), scope, env)
            == (StaticVerdict(c, c.tokens[j]), cache)
  {
    j := FirstAccepting(c.tokens, key, scope, i);
    assert (c.prefix + key)[|c.prefix|..] == key;
  }

  /** What the list decides: the first token whose secret is the key and whose scopes, if it has any, name the
      scope. */
  lemma ListedDecides<D, U, H>(
    c: Config<D, U, H>, cache: Cache<CacheKey<H>, U>, key: string, scope: Option<string>, env: Environment<D>, i: nat)
    requires i < |c.tokens| && IsListed(c.tokens[i].secret, c.tokens[i].scopes, key, scope)
    requires forall j :: 0 <= j < i ==> !IsListed(c.tokens[j].secret, c.tokens[j].scopes, key, scope)
    ensures Verdicts(c, cache, Bearer(c.prefix + key), scope, env)
            == (match c.convert(c.tokens[i].claims) case Some(u) => Authenticated(u) case None => Failed(Internal),
                cache)
  {
    var j := FirstAccepting(c.tokens, key, scope, i);
    assert (c.prefix + key)[|c.prefix|..] == key;
  }

  /** Without a listed token a key with the prefix is refused, unless there is a validator; then it is as if
      there were no list. */
  lemma UnlistedIsNotDecided<D, U, H>(
    c: Config<D, U, H>, cache: Cache<CacheKey<H>, U>, key: string, scope: Option<string>, env: Environment<D>)
    requires forall i :: 0 <= i < |c.tokens| ==> !IsListed(c.tokens[i].secret, c.tokens[i].scopes, key, scope)
    ensures Verdicts(c, cache, Bearer(c.prefix + key), scope, env)
            == if c.validator == None then (Failed(InvalidCredential), cache)
               else Verdicts(c.(tokens := []), cache, Bearer(c.prefix + key), scope, env)
  {
    assert (c.prefix + key)[|c.prefix|..] == key;
    NoneAccepts(c.tokens, key, scope);
  }

  /** A listed secret is the key, and the scopes it is limited to, if any, name the scope asked for. */
  predicate IsListed(secret: string, scopes: Option<set<string>>, key: string, scope: Option<string>) {
    secret == key && (scopes == None || (scope.Some? && scope.value in scopes.value))
  }

  lemma {:induction false} NoneAccepts<D>(tokens: seq<StaticToken<D>>, key: string, scope: Option<string>)
    requires forall i :: 0 <= i < |tokens| ==> !Accepts(tokens[i], key, scope)
    ensures FindStatic(tokens, key, scope) == None
  {
    if tokens != [] {
      NoneAccepts(tokens[1..], key, scope);
    }
  }

  /** A key the list does not decide is answered from the cache, under its own scope, validator and digest,
      or else by the validator and the conversion. */
  lemma OthersAreAsked<D, U, H>(
    c: Config<D, U, H>, cache: Cache<CacheKey<H>, U>, key: string, scope: Option<string>, env: Environment<D>)
    requires c.tokens == [] && c.validator.Some?
    ensures var k := CacheKey(scope, c.validator.value, "", c.hash(key));
            Verdicts(c, cache, Bearer(c.prefix + key), scope, env).0
            == if k in cache.entries && env.at.getAt < cache.entries[k].expiresAt
               then Authenticated(cache.entries[k].value)
               else match env.answer
                    case Err(e) => Failed(e)
                    case Ok(claims) =>
                      match c.convert(claims) case Some(u) => Authenticated(u) case None => Failed(Internal)
  {
    assert (c.prefix + key)[|c.prefix|..] == key;
  }

  /** How long an answer is kept: claims that report an expiry not yet past for the time that is left, at most
      the cap, all others for the fallback lifetime; in each case less the margin. Until then a second call
      is answered without the validator. */
  lemma AnswerLastsIff<D, U, H>(
    c: Config<D, U, H>, cache: Cache<CacheKey<H>, U>, key: string, scope: Option<string>,
    env: Environment<D>, claims: IdentityClaims<D>, u: U, later: Environment<D>)
    requires c.tokens == [] && c.validator.Some?
    requires CacheKey(scope, c.validator.value, "", c.hash(key)) !in cache.entries
    requires env.answer == Ok(claims) && c.convert(claims) == Some(u)
    requires env.at.storeAt <= later.at.getAt && later.answer == Err(Upstream)
    ensures var lifetime :=
              if claims.expiresAt.Some? && env.ttlAt <= claims.expiresAt.value
              then (if claims.expiresAt.value - env.ttlAt <= c.maxCacheTtl then claims.expiresAt.value - env.ttlAt
                    else c.maxCacheTtl)
              else c.cache.fallbackTtl;
            var (first, cache') := Verdicts(c, cache, Bearer(c.prefix + key), scope, env);
            && first == Authenticated(u)
            && Verdicts(c, cache', Bearer(c.prefix + key), scope, later).0
               == if c.cache.maxEntries > 0 && later.at.getAt + c.cache.refreshMargin < env.at.storeAt + lifetime
                  then Authenticated(u) else Failed(Upstream)
  {
    assert (c.prefix + key)[|c.prefix|..] == key;
    var r := ApiRequest(key, scope);
    var c1 := CredentialCaching.Apply(c.cache, cache, Op.Get(CacheKeyOf(c, r), env.at.getAt)).0;
    InsertThenGetIff(c.cache, c1, CacheKeyOf(c, r), u, CacheTtl(c, claims.expiresAt, env.ttlAt),
                     env.at.pruneAt, env.at.storeAt, later.at.getAt);
  }

  lemma {:induction false} FirstAccepting<D>(tokens: seq<StaticToken<D>>, key: string, scope: Option<string>, i: nat)
    returns (j: nat)
    requires i < |tokens| && Accepts(tokens[i], key, scope)
    ensures j <= i && FindStatic(tokens, key, scope) == Some(tokens[j]) && Accepts(tokens[j], key, scope)
    ensures forall k :: 0 <= k < j ==> !Accepts(tokens[k], key, scope)
  {
    if Accepts(tokens[0], key, scope) {
      j := 0;
    } else {
      j := FirstAccepting(tokens[1..], key, scope, i - 1);
      j := j + 1;
      assert forall k :: 0 < k < j ==> tokens[k] == tokens[1..][k - 1];
    }
  }
}
