/** `Authorization: Basic`: two grants behind one header, sharing one cache. */
module BasicGrants {
  import opened Wrappers
  import opened AuthTypes
  import opened CredentialCaching
  import opened CacheHistory
  import opened SharedCaching
  import opened CachedExchanging

  datatype Grant = ClientCredentials | Password

  function MechanismOf(g: Grant): string {
    match g case ClientCredentials => "basic-client-credentials" case Password => "basic-password"
  }

  datatype BasicRequest = BasicRequest(grant: Grant, scope: Option<string>, id: string, secret: string)

  /** The claims a grant yields: a machine grant knows nothing but the client that proved itself. */
  datatype GrantClaims<D> = ClientClaims(clientId: string) | UserClaims(data: D)

  datatype Config<!D, !U, !H> = Config(
    allowPassword: bool, cache: CacheConfig, convert: GrantClaims<D> -> Option<U>, hash: string -> H)

  /** The grant the `X-Grant-Type` header selects. */
  function SelectGrant<D, U, H>(c: Config<D, U, H>, header: Option<string>): Result<Grant, AuthError> {
    match header
    case None => Ok(ClientCredentials)
    case Some(name) =>
      if name == "client_credentials" then Ok(ClientCredentials)
      else if name == "password" then (if c.allowPassword then Ok(Password) else Err(Unsupported))
      else Err(MalformedCredential)
  }

  function CacheKeyOf<D, U, H>(c: Config<D, U, H>, r: BasicRequest): CacheKey<H> {
    KeyFor(c.hash, r.scope, MechanismOf(r.grant), r.id, r.secret)
  }

  /** What the token endpoint and the verification of its answer yield for a request: an error, or the
      reported lifetime and, for the password grant, the verified claims. */
  datatype Environment<D> = Environment(answer: Result<(D, Option<nat>), AuthError>, at: Readings)

  function ClaimsFor<D>(r: BasicRequest, data: D): GrantClaims<D> {
    if r.grant.ClientCredentials? then ClientClaims(r.id) else UserClaims(data)
  }

  function Asked<D, U, H>(c: Config<D, U, H>, r: BasicRequest, env: Environment<D>): Result<(U, Option<nat>), AuthError>
  {
    match env.answer
    case Err(e) => Err(e)
    case Ok((data, expiresIn)) =>
      match c.convert(ClaimsFor(r, data))
      case None => Err(Internal)
      case Some(u) => Ok((u, expiresIn))
  }

  ghost function Verdicts<D, U, H>(
    c: Config<D, U, H>, cache: Cache<CacheKey<H>, U>, credential: Credential, header: Option<string>,
    scope: Option<string>,
    env: Environment<D>): (Verdict<U>, Cache<CacheKey<H>, U>)
  {
    match credential
    case Basic(id, secret) =>
      (match SelectGrant(c, header)
       case Err(e) => (Failed(e), cache)
       case Ok(grant) =>
         var r := BasicRequest(grant, scope, id, secret);
         var (result, cache') := AnswerAlone(c.cache, cache, CacheKeyOf(c, r), Asked(c, r, env), env.at);
         (VerdictOf(result), cache'))
    case _ => (NotApplicable, cache)
  }

  class BasicAuthenticator<D, U, H(==)> {
    const config: Config<D, U, H>
    const cache: CredentialCache<CacheKey<H>, U>

    constructor (config: Config<D, U, H>)
      ensures this.config == config && fresh(cache) && cache.config == config.cache && cache.View() == Cache(map[], 0)
    {
      this.config := config;
      cache := new CredentialCache(config.cache);
    }

    /** Both grants: from the cache under the grant's own mechanism name, or by asking. */
    method RunGrant(r: BasicRequest, env: Environment<D>) returns (result: Result<U, AuthError>)
      requires cache.config == config.cache
      modifies cache
      ensures DistinctUses(old(cache.entries)) ==>
                (result, cache.View())
                == AnswerAlone(config.cache, old(cache.View()), CacheKeyOf(config, r), Asked(config, r, env), env.at)
    {
      var key := KeyFor(config.hash, r.scope, MechanismOf(r.grant), r.id, r.secret);
      var found := cache.Get(key, env.at.getAt);
      if found.Some? {
        return Ok(found.value);
      }
      match env.answer {
        case Err(e) => return Err(e);
        case Ok((data, expiresIn)) =>
          var user := config.convert(ClaimsFor(r, data));
          if user.None? {
            return Err(Internal);
          }
          cache.Insert(key, user.value, expiresIn, env.at.pruneAt, env.at.storeAt);
          return Ok(user.value);
      }
    }

    method Authenticate(credential: Credential, header: Option<string>, scope: Option<string>, env: Environment<D>)
      returns (verdict: Verdict<U>)
      requires cache.config == config.cache
      modifies cache
      ensures DistinctUses(old(cache.entries)) ==>
                (verdict, cache.View()) == Verdicts(config, old(cache.View()), credential, header, scope, env)
    {
      if !credential.Basic? {
        return NotApplicable;
      }
      match SelectGrant(config, header) {
        case Err(e) => return Failed(e);
        case Ok(grant) =>
          var result := RunGrant(BasicRequest(grant, scope, credential.id, credential.secret), env);
          return VerdictOf(result);
      }
    }
  }

  // ---------- any number of calls at once ----------

  type BasicState<D, U, H(==)> = State<BasicRequest, CacheKey<H>, GrantClaims<D>, U, AuthError>

  /** `answers` says which claims and lifetime the token endpoint may yield for a request. */
  ghost function ExchangeFor<D, U, H>(c: Config<D, U, H>, answers: (BasicRequest, GrantClaims<D>, Option<nat>) -> bool)
    : Exchange<BasicRequest, CacheKey<H>, GrantClaims<D>, U, AuthError>
  {
    Exchange(
      r => CacheKeyOf(c, r),
      c.cache,
      (r: BasicRequest, p: Production<GrantClaims<D>, U>) =>
        && answers(r, p.evidence, p.expiresIn) && c.convert(p.evidence) == Some(p.user)
        && (r.grant.ClientCredentials? ==> p.evidence == ClientClaims(r.id))
        && (r.grant.Password? ==> p.evidence.UserClaims?),
      (r: BasicRequest, e: AuthError) => true)
  }

  ghost predicate NoCollision<D, U, H, S, V, E>(
    c: Config<D, U, H>, s: State<BasicRequest, CacheKey<H>, S, V, E>, secret: string)
  {
    forall made :: made in s.produced && c.hash(made.0.secret) == c.hash(secret) ==> made.0.secret == secret
  }

  /** The token endpoint's answer to one request, issued at `issued`, as the exchange sees it. */
  function AsProduced<D, U, H>(c: Config<D, U, H>, r: BasicRequest, env: Environment<D>, issued: nat)
    : Result<Production<GrantClaims<D>, U>, AuthError>
  {
    match env.answer
    case Err(e) => Err(e)
    case Ok((data, expiresIn)) =>
      match c.convert(ClaimsFor(r, data))
      case None => Err(Internal)
      case Some(u) => Ok(Production(u, expiresIn, issued, ClaimsFor(r, data)))
  }

  /** A call of the object that asks is a run of the exchange: the same readings and the same answer of the
      token endpoint lead request `t` to the same verdict and the same cache. */
  lemma AuthenticateIsARun<D(!new), U(!new), H(!new)>(
    c: Config<D, U, H>, answers: (BasicRequest, GrantClaims<D>, Option<nat>) -> bool,
    s: BasicState<D, U, H>, t: nat, header: Option<string>, env: Environment<D>, issued: nat)
    returns (steps: seq<Step<BasicRequest, GrantClaims<D>, U, AuthError>>, s': BasicState<D, U, H>)
    requires SharedInv(c.cache, s.shared) && s.shared.clock + 2 < TWO_TO_THE_64
    requires t < |s.tasks| && SelectGrant(c, header) == Ok(s.tasks[t].request.grant) && s.tasks[t].pc.Start?
    requires s.now <= env.at.getAt <= env.at.pruneAt <= env.at.storeAt && issued <= env.at.pruneAt
    requires env.answer.Ok? ==>
               answers(s.tasks[t].request, ClaimsFor(s.tasks[t].request, env.answer.value.0), env.answer.value.1)
    ensures Leads(ExchangeFor(c, answers), s, steps, s') && |s'.tasks| == |s.tasks| && s'.tasks[t].pc.Done?
    ensures var r := s.tasks[t].request;
            var (verdict, cache') := Verdicts(c, CacheOf(s.shared), Basic(r.id, r.secret), header, r.scope, env);
            && CacheOf(s'.shared) == cache' && AnswerOf(s'.tasks[t].pc.answer).Some?
            && VerdictOf(AnswerOf(s'.tasks[t].pc.answer).value) == verdict
  {
    var r := s.tasks[t].request;
    steps, s' := AnswerAloneIsARun(ExchangeFor(c, answers), s, t, AsProduced(c, r, env, issued), env.at);
  }

  lemma MechanismsDiffer(g: Grant, h: Grant)
    ensures MechanismOf(g) == MechanismOf(h) ==> g == h
  {
  }

  /** The grants never answer for each other: a cached answer, in every interleaving, had been produced
      before (`run[j]` is the state in which the call looked) by the same grant for the same scope, id and
      secret; a machine grant's is the conversion of the presented client id itself. If storing it took at
      most the margin after the token was issued, it is not given out at or after the token's own expiry. */
  lemma GrantsAreIsolated<D(!new), U(!new), H(!new)>(
    c: Config<D, U, H>, answers: (BasicRequest, GrantClaims<D>, Option<nat>) -> bool,
    run: seq<BasicState<D, U, H>>, i: nat, t: nat)
    returns (p: Production<GrantClaims<D>, U>, stored: nat, j: nat)
    requires CachedExchanging.IsRun(ExchangeFor(c, answers), run) && i < |run| && IsHit(run[i], t)
    requires NoCollision(c, run[i], run[i].tasks[t].request.secret)
    ensures j < i && t < |run[j].tasks| && run[j].tasks[t].pc.WillGet?
    ensures var r, claims, Hit(user, at) := run[i].tasks[t].request, p.evidence, run[i].tasks[t].pc.answer;
            && (r, p) in run[j].produced && p.user == user
            && answers(r, claims, p.expiresIn) && c.convert(claims) == Some(user)
            && (r.grant.ClientCredentials? ==> claims == ClientClaims(r.id))
            && (r.grant.Password? ==> claims.UserClaims?)
            && p.countedFrom <= stored <= at < stored + Ttl(c.cache, p.expiresIn)
            && (p.expiresIn.Some? && stored <= p.countedFrom + c.cache.refreshMargin ==>
                 at < p.countedFrom + p.expiresIn.value)
  {
    var r;
    r, p, stored, j := MarginAbsorbsLatency(ExchangeFor(c, answers), run, i, t);
    MechanismsDiffer(r.grant, run[i].tasks[t].request.grant);
    assert (r, p).0 == run[i].tasks[t].request;
  }

  /** The grant is the header's: without one the client grant, with `password` the password grant where it is
      allowed; everything else is refused without looking at the cache. */
  lemma HeaderSelects<D, U, H>(
    c: Config<D, U, H>, cache: Cache<CacheKey<H>, U>, id: string, secret: string, header: Option<string>,
    scope: Option<string>, env: Environment<D>)
    ensures header == Some("password") && !c.allowPassword ==>
              Verdicts(c, cache, Basic(id, secret), header, scope, env) == (Failed(Unsupported), cache)
    ensures header.Some? && header.value != "password" && header.value != "client_credentials" ==>
              Verdicts(c, cache, Basic(id, secret), header, scope, env) == (Failed(MalformedCredential), cache)
    ensures header == Some("client_credentials") ==>
              Verdicts(c, cache, Basic(id, secret), header, scope, env)
              == Verdicts(c, cache, Basic(id, secret), None, scope, env)
  {
  }

  /** The password grant is answered from the cache under its own name, or else with the claims the endpoint
      yields for that request; the client grant with the presented client id alone. */
  lemma GrantAnswers<D, U, H>(
    c: Config<D, U, H>, cache: Cache<CacheKey<H>, U>, id: string, secret: string, scope: Option<string>,
    env: Environment<D>)
    ensures c.allowPassword ==>
              var k := CacheKey(scope, "basic-password", id, c.hash(secret));
              Verdicts(c, cache, Basic(id, secret), Some("password"), scope, env).0
              == if k in cache.entries && env.at.getAt < cache.entries[k].expiresAt
                 then Authenticated(cache.entries[k].value)
                 else match env.answer
                      case Err(e) => Failed(e)
                      case Ok((data, _)) =>
                        match c.convert(UserClaims(data)) case Some(u) => Authenticated(u) case None => Failed(Internal)
    ensures var k := CacheKey(scope, "basic-client-credentials", id, c.hash(secret));
            Verdicts(c, cache, Basic(id, secret), None, scope, env).0
            == if k in cache.entries && env.at.getAt < cache.entries[k].expiresAt
               then Authenticated(cache.entries[k].value)
               else match env.answer
                    case Err(e) => Failed(e)
                    case Ok(_) =>
                      match c.convert(ClientClaims(id)) case Some(u) => Authenticated(u) case None => Failed(Internal)
  {
  }

  /** How long an answer is kept: for the lifetime the endpoint reports, or else the fallback lifetime, less
      the margin. Until then a second call under the same grant is answered without the endpoint. */
  lemma AnswerLastsIff<D, U, H>(
    c: Config<D, U, H>, cache: Cache<CacheKey<H>, U>, id: string, secret: string, header: Option<string>,
    scope: Option<string>, env: Environment<D>, data: D, expiresIn: Option<nat>, u: U, later: Environment<D>)
    requires header == None || (header == Some("password") && c.allowPassword)
    requires var mechanism := if header == None then "basic-client-credentials" else "basic-password";
             CacheKey(scope, mechanism, id, c.hash(secret)) !in cache.entries
    requires env.answer == Ok((data, expiresIn))
    requires c.convert(if header == None then ClientClaims(id) else UserClaims(data)) == Some(u)
    requires env.at.storeAt <= later.at.getAt && later.answer == Err(Upstream)
    ensures var lifetime := if expiresIn.Some? then expiresIn.value else c.cache.fallbackTtl;
            var (first, cache') := Verdicts(c, cache, Basic(id, secret), header, scope, env);
            && first == Authenticated(u)
            && Verdicts(c, cache', Basic(id, secret), header, scope, later).0
               == if c.cache.maxEntries > 0 && later.at.getAt + c.cache.refreshMargin < env.at.storeAt + lifetime
                  then Authenticated(u) else Failed(Upstream)
  {
    var r := BasicRequest(if header == None then ClientCredentials else Password, scope, id, secret);
    var c1 := CredentialCaching.Apply(c.cache, cache, Op.Get(CacheKeyOf(c, r), env.at.getAt)).0;
    InsertThenGetIff(c.cache, c1, CacheKeyOf(c, r), u, expiresIn, env.at.pruneAt, env.at.storeAt, later.at.getAt);
  }
}
