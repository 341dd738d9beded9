/** The four mechanisms in one chain: which requests each claims, and when their order matters. */
module Claimants {
  import opened Wrappers
  import opened Strings
  import opened AuthTypes
  import opened AuthChains
  import opened BearerShapes
  import opened LoginFlows
  import opened Sessions
  import opened CredentialCaching
  import ApiTokens
  import BasicGrants

  /** What the identity provider and the application make of a request they are asked about, at the
      moment it arrives. */
  datatype World<!D, !E, !U, !H(==), !C> = World(
    api: ApiTokens.Config<D, U, H>, apiEnv: ApiTokens.Environment<D>, apiCache: Cache<CacheKey<H>, U>,
    basic: BasicGrants.Config<E, U, H>, basicEnv: BasicGrants.Environment<E>, basicCache: Cache<CacheKey<H>, U>,
    jwt: string -> Result<C, AuthError>, convertJwt: C -> Option<U>,
    session: SessionConfig<U, C>, secrets: Secrets)

  datatype Scope = Scope(discriminator: Option<string>, cookieName: string)

  /** The bearer authenticator. */
  function BearerVerdict<U, C>(r: Request, jwt: string -> Result<C, AuthError>, convert: C -> Option<U>): Verdict<U> {
    if !r.credential.Bearer? || !IsCompactJws(r.credential.token) then NotApplicable
    else match jwt(r.credential.token)
         case Err(e) => Failed(e)
         case Ok(claims) => match convert(claims) case Some(u) => Authenticated(u) case None => Failed(Internal)
  }

  /** The verdicts of the four mechanisms: API token, bearer, Basic, session. */
  ghost function FourVerdicts<D, E, U, H, C>(w: World<D, E, U, H, C>, r: Request, scope: Scope): seq<Verdict<U>> {
    [ApiTokens.Verdicts(w.api, w.apiCache, r.credential, scope.discriminator, w.apiEnv).0,
     BearerVerdict(r, w.jwt, w.convertJwt),
     BasicGrants.Verdicts(w.basic, w.basicCache, r.credential, r.grantType, scope.discriminator, w.basicEnv).0,
     SessionVerdict(w.session, r, scope.cookieName, w.secrets)]
  }

  predicate Prefixed(r: Request, prefix: string) {
    r.credential.Bearer? && StartsWith(r.credential.token, prefix)
  }

  predicate JwsShaped(r: Request) {
    r.credential.Bearer? && IsCompactJws(r.credential.token)
  }

  /** A bearer token of the shape of a JWS is judged by the provider and then by the application; the bearer
      authenticator lets in whom both accept, and passes on the provider's error. */
  lemma BearerIff<U, C>(r: Request, jwt: string -> Result<C, AuthError>, convert: C -> Option<U>, u: U, e: AuthError)
    ensures BearerVerdict(r, jwt, convert) == Authenticated(u) <==>
            && JwsShaped(r)
            && jwt(r.credential.token).Ok? && convert(jwt(r.credential.token).value) == Some(u)
    ensures BearerVerdict(r, jwt, convert) == Failed(e) <==>
            && JwsShaped(r)
            && (jwt(r.credential.token) == Err(e)
                || (jwt(r.credential.token).Ok? && convert(jwt(r.credential.token).value) == None && e == Internal))
  {
  }

  /** Each mechanism claims exactly its own requests, whatever anybody answers: the session mechanism
      every request with its cookie and every request without a credential, login flow or not. */
  lemma ClaimDomains<D, E, U, H, C>(w: World<D, E, U, H, C>, r: Request, scope: Scope)
    ensures var vs := FourVerdicts(w, r, scope);
            && (Claims(vs[0]) <==> Prefixed(r, w.api.prefix))
            && (Claims(vs[1]) <==> JwsShaped(r))
            && (Claims(vs[2]) <==> r.credential.Basic?)
            && (Claims(vs[3]) <==> scope.cookieName in r.cookies || r.credential == NoCredential)
  {
  }

  /** Two of the four claim the request. */
  ghost predicate Contested<U>(vs: seq<Verdict<U>>) {
    exists i, j :: 0 <= i < j < |vs| && Claims(vs[i]) && Claims(vs[j])
  }

  /** The requests that carry two credentials at once, or one that two mechanisms recognise. */
  predicate Ambiguous(r: Request, scope: Scope, prefix: string) {
    || (scope.cookieName in r.cookies && (r.credential.Basic? || Prefixed(r, prefix) || JwsShaped(r)))
    || (Prefixed(r, prefix) && JwsShaped(r))
  }

  /** Only an ambiguous request is contested. */
  lemma ContestedIff<D, E, U, H, C>(w: World<D, E, U, H, C>, r: Request, scope: Scope)
    ensures Contested(FourVerdicts(w, r, scope)) <==> Ambiguous(r, scope, w.api.prefix)
  {
    ClaimDomains(w, r, scope);
    var vs := FourVerdicts(w, r, scope);
    if scope.cookieName in r.cookies {
      assert Prefixed(r, w.api.prefix) ==> Claims(vs[0]) && Claims(vs[3]);
      assert JwsShaped(r) ==> Claims(vs[1]) && Claims(vs[3]);
      assert r.credential.Basic? ==> Claims(vs[2]) && Claims(vs[3]);
    }
    assert Prefixed(r, w.api.prefix) && JwsShaped(r) ==> Claims(vs[0]) && Claims(vs[1]);
  }

  /** Registered in any order, the four give the same answer to every request that is not ambiguous. */
  lemma OrderDoesNotMatter<D, E, U(!new), H, C>(
    w: World<D, E, U, H, C>, r: Request, scope: Scope, ws: seq<Verdict<U>>,
    policy: PublicScopePolicy, isPublic: bool, noCredential: bool)
    requires !Ambiguous(r, scope, w.api.prefix)
    requires multiset(ws) == multiset(FourVerdicts(w, r, scope))
    ensures Resolve(ws, policy, isPublic, noCredential)
        == Resolve(FourVerdicts(w, r, scope), policy, isPublic, noCredential)
  {
    var vs := FourVerdicts(w, r, scope);
    ContestedIff(w, r, scope);
    assert ClaimantsAgree(vs) by {
      forall i, j | 0 <= i < |vs| && 0 <= j < |vs| && Claims(vs[i]) && Claims(vs[j]) ensures vs[i] == vs[j] {
        assert i < j ==> Contested(vs);
        assert j < i ==> Contested(vs);
      }
    }
    PermutationAgrees(vs, ws, isPublic);
  }

  /** The same service at the same moment, the provider judging ID tokens in another way, the bearer's and
      the session's alike. */
  ghost predicate SameService<D, E, U, H, C>(w: World<D, E, U, H, C>, w': World<D, E, U, H, C>) {
    w' == w.(jwt := w'.jwt, session := w.session.(verify := w'.jwt))
  }

  /** The world in which the provider judges so. */
  ghost function Judging<D, E, U, H, C>(w: World<D, E, U, H, C>, provider: string -> Result<C, AuthError>)
    : (w': World<D, E, U, H, C>)
    ensures SameService(w, w')
  {
    w.(jwt := provider, session := w.session.(verify := provider))
  }

  /** The same request, the session cookie, if it has one, with another value. */
  function WithCookie(r: Request, scope: Scope, raw: string): Request {
    if scope.cookieName in r.cookies then r.(cookies := r.cookies[scope.cookieName := raw]) else r
  }

  /** Every ID token fits in some session cookie. */
  ghost predicate CarriesAnyToken<U, C>(c: SessionConfig<U, C>) {
    forall token: string :: token != "" ==> HasCookie(c, token)
  }

  ghost predicate HasCookie<U, C>(c: SessionConfig<U, C>, token: string) {
    exists raw: string :: Carries(c, raw, token)
  }

  predicate Carries<U, C>(c: SessionConfig<U, C>, raw: string, token: string) {
    c.decode(raw) == Ok(token)
  }

  lemma SomeCookie<U, C>(c: SessionConfig<U, C>, token: string) returns (raw: string)
    requires CarriesAnyToken(c) && token != ""
    ensures c.decode(raw) == Ok(token)
  {
    assert HasCookie(c, token);
    raw :| Carries(c, raw, token);
  }

  /** As it does with the codec that stores it verbatim. */
  lemma VerbatimCodecCarriesAnyToken<U, C>(c: SessionConfig<U, C>)
    requires forall raw: string :: c.decode(raw) == DecodeIdToken(raw)
    ensures CarriesAnyToken(c)
  {
    forall token: string | token != "" ensures HasCookie(c, token) {
      assert Carries(c, token, token);
    }
  }

  /** An error that makes the verdict of a mechanism another one. */
  function OtherError<U>(v: Verdict<U>): AuthError {
    if v == Failed(Upstream) then Internal else Upstream
  }

  lemma DifferingClaimantsMatter<U(!new)>(vs: seq<Verdict<U>>, i: nat, j: nat)
    requires i < |vs| && j < |vs| && Claims(vs[i]) && Claims(vs[j]) && vs[i] != vs[j]
    ensures !OrderIsIrrelevant(vs)
  {
    OrderIsIrrelevantIff(vs);
  }

  /** A request that carries the session cookie and an API token or a Basic pair: the session's verdict may
      differ from that of the mechanism `i` which claims the credential. */
  lemma CookieCanMatter<D, E, U(!new), H, C>(w: World<D, E, U, H, C>, r: Request, scope: Scope, i: nat)
    returns (raw: string, w': World<D, E, U, H, C>)
    requires CarriesAnyToken(w.session) && scope.cookieName in r.cookies
    requires (i == 0 || i == 2) && Claims(FourVerdicts(w, r, scope)[i])
    ensures SameService(w, w') && !OrderIsIrrelevant(FourVerdicts(w', WithCookie(r, scope, raw), scope))
  {
    var e := OtherError(FourVerdicts(w, r, scope)[i]);
    raw := SomeCookie(w.session, "t");
    w' := Judging(w, (token: string) => Err(e));
    var vs := FourVerdicts(w', WithCookie(r, scope, raw), scope);
    assert vs[3] == Failed(e) && vs[i] == FourVerdicts(w, r, scope)[i];
    DifferingClaimantsMatter(vs, i, 3);
  }

  /** One that carries the cookie and a bearer token: the session may hold another ID token, of which the
      provider thinks otherwise. */
  lemma TwoTokensCanMatter<D, E, U(!new), H, C>(w: World<D, E, U, H, C>, r: Request, scope: Scope)
    returns (raw: string, w': World<D, E, U, H, C>)
    requires CarriesAnyToken(w.session) && scope.cookieName in r.cookies && JwsShaped(r)
    ensures SameService(w, w') && !OrderIsIrrelevant(FourVerdicts(w', WithCookie(r, scope, raw), scope))
  {
    var bearer := r.credential.token;
    var other := bearer + ".";
    assert other != bearer && other != "";
    raw := SomeCookie(w.session, other);
    w' := Judging(w, (token: string) => if token == bearer then Err(Upstream) else Err(Internal));
    var vs := FourVerdicts(w', WithCookie(r, scope, raw), scope);
    assert vs[1] == Failed(Upstream) && vs[3] == Failed(Internal);
    DifferingClaimantsMatter(vs, 1, 3);
  }

  /** One whose token carries the prefix and has the shape of a JWS: the bearer authenticator's may differ
      from the API-token mechanism's. */
  lemma TokenCanMatter<D, E, U(!new), H, C>(w: World<D, E, U, H, C>, r: Request, scope: Scope, raw: string)
    returns (w': World<D, E, U, H, C>)
    requires Prefixed(r, w.api.prefix) && JwsShaped(r)
    ensures SameService(w, w') && !OrderIsIrrelevant(FourVerdicts(w', WithCookie(r, scope, raw), scope))
  {
    var r' := WithCookie(r, scope, raw);
    var e := OtherError(FourVerdicts(w, r', scope)[0]);
    w' := Judging(w, (token: string) => Err(e));
    ClaimDomains(w, r', scope);
    assert FourVerdicts(w', r', scope)[1] == Failed(e);
    DifferingClaimantsMatter(FourVerdicts(w', r', scope), 0, 1);
  }

  /** The registration order cannot matter for a request, whatever value its session cookie has and whatever
      the identity provider makes of ID tokens, exactly if the request is not ambiguous. Which requests
      those are can be told from the request, the name of the scope's session cookie and the API prefix. */
  lemma OrderMattersIff<D(!new), E(!new), U(!new), H(!new), C(!new)>(w: World<D, E, U, H, C>, r: Request, scope: Scope)
    requires CarriesAnyToken(w.session)
    ensures (forall raw: string, w': World<D, E, U, H, C> :: SameService(w, w') ==>
               OrderIsIrrelevant(FourVerdicts(w', WithCookie(r, scope, raw), scope)))
            <==> !Ambiguous(r, scope, w.api.prefix)
  {
    if !Ambiguous(r, scope, w.api.prefix) {
      forall raw: string, w': World<D, E, U, H, C> | SameService(w, w')
        ensures OrderIsIrrelevant(FourVerdicts(w', WithCookie(r, scope, raw), scope))
      {
        UnambiguousIsIrrelevant(w', WithCookie(r, scope, raw), scope);
      }
    } else {
      var raw, w' := AmbiguousCanMatter(w, r, scope);
    }
  }

  lemma UnambiguousIsIrrelevant<D, E, U(!new), H, C>(w: World<D, E, U, H, C>, r: Request, scope: Scope)
    requires !Ambiguous(r, scope, w.api.prefix)
    ensures OrderIsIrrelevant(FourVerdicts(w, r, scope))
  {
    var vs := FourVerdicts(w, r, scope);
    forall ws: seq<Verdict<U>> | multiset(ws) == multiset(vs) ensures ResolveFrom(ws, false) == ResolveFrom(vs, false) {
      OrderDoesNotMatter(w, r, scope, ws, Optional, false, false);
    }
  }

  lemma AmbiguousCanMatter<D, E, U(!new), H, C>(w: World<D, E, U, H, C>, r: Request, scope: Scope)
    returns (raw: string, w': World<D, E, U, H, C>)
    requires CarriesAnyToken(w.session) && Ambiguous(r, scope, w.api.prefix)
    ensures SameService(w, w') && !OrderIsIrrelevant(FourVerdicts(w', WithCookie(r, scope, raw), scope))
  {
    ClaimDomains(w, r, scope);
    if Prefixed(r, w.api.prefix) && JwsShaped(r) {
      raw := "";
      w' := TokenCanMatter(w, r, scope, raw);
    } else if Prefixed(r, w.api.prefix) {
      raw, w' := CookieCanMatter(w, r, scope, 0);
    } else if JwsShaped(r) {
      raw, w' := TwoTokensCanMatter(w, r, scope);
    } else {
      raw, w' := CookieCanMatter(w, r, scope, 2);
    }
  }

  /** An ambiguous request need not show it: with one ID token both in the cookie and as the bearer token,
      and no login flow, the two mechanisms say the same. */
  lemma SameTokenDoesNotMatter<D, E, U(!new), H, C>(w: World<D, E, U, H, C>, r: Request, scope: Scope)
    requires JwsShaped(r) && !Prefixed(r, w.api.prefix)
    requires scope.cookieName in r.cookies && w.session.decode(r.cookies[scope.cookieName]) == Ok(r.credential.token)
    requires w.session.verify == w.jwt && w.session.convert == w.convertJwt && w.session.login == None
    ensures Ambiguous(r, scope, w.api.prefix) && OrderIsIrrelevant(FourVerdicts(w, r, scope))
  {
    ClaimDomains(w, r, scope);
    OrderIsIrrelevantIff(FourVerdicts(w, r, scope));
  }

  /** A request with no credential and no cookie is claimed by the session mechanism alone, wherever it is
      registered; so where it stands decides nothing for such a request. */
  lemma AbsentCredentialIsTheSessions<D, E, U(!new), H, C>(
    w: World<D, E, U, H, C>, r: Request, scope: Scope, ws: seq<Verdict<U>>)
    requires r.credential == NoCredential
    requires multiset(ws) == multiset(FourVerdicts(w, r, scope))
    ensures ResolveFrom(ws, false) == OutcomeOf(SessionVerdict(w.session, r, scope.cookieName, w.secrets), false)
  {
    OrderDoesNotMatter(w, r, scope, ws, Optional, false, false);
    ClaimDomains(w, r, scope);
    LastOfFourDecides(FourVerdicts(w, r, scope));
  }

  lemma LastOfFourDecides<U>(vs: seq<Verdict<U>>)
    requires |vs| == 4 && !Claims(vs[0]) && !Claims(vs[1]) && !Claims(vs[2]) && Claims(vs[3])
    ensures ResolveFrom(vs, false) == OutcomeOf(vs[3], false)
  {
    FirstClaimDecides(vs, false);
    assert DecidedBy(vs, 3);
  }
}
