/** Browser-session authentication from a cookie, and its decision to start an interactive login. */
module Sessions {
  import opened Wrappers
  import opened AuthTypes
  import opened RedirectPolicies
  import opened LoginFlows

  /** The parts of a request the mechanisms look at. */
  datatype Request = Request(
    method_: string, path: string, query: string, credential: Credential, cookies: map<string, string>,
    grantType: Option<string>)

  /** `decode` is the session codec, `verify` the provider's check of the ID token with a nonce present,
      `convert` the application's `TryFrom`. The login flow, if configured, comes with the secrets the
      next attempt will draw and the authorization endpoint. */
  datatype SessionConfig<!U, !C> = SessionConfig(
    decode: string -> Result<string, AuthError>, verify: string -> Result<C, AuthError>, convert: C -> Option<U>,
    login: Option<Flow>, location: AuthorizationRequest -> string)

  /** The codec that stores the ID token verbatim. */
  function DecodeIdToken(raw: string): Result<string, AuthError> {
    if raw == "" then Err(Unauthenticated) else Ok(raw)
  }

  function ReturnTo(r: Request): string {
    if r.query == "" then r.path else r.path + "?" + r.query
  }

  function ChallengeFor<U, C>(c: SessionConfig<U, C>, r: Request, secrets: Secrets, fallback: AuthError): AuthError {
    if c.login.None? || r.method_ != "GET" then fallback
    else match Authorize(c.login.value, ReturnTo(r), secrets)
         case Ok(redirect) => Redirect(c.location(redirect.request), redirect.cookies)
         case Err(e) => e
  }

  function SessionVerdict<U, C>(c: SessionConfig<U, C>, r: Request, cookieName: string, secrets: Secrets): Verdict<U> {
    if cookieName !in r.cookies then
      if r.credential != NoCredential then NotApplicable
      else Failed(ChallengeFor(c, r, secrets, Unauthenticated))
    else match c.decode(r.cookies[cookieName])
         case Err(e) => Failed(ChallengeFor(c, r, secrets, e))
         case Ok(token) =>
           match c.verify(token)
           case Ok(claims) => (match c.convert(claims) case Some(u) => Authenticated(u) case None => Failed(Internal))
           case Err(e) => Failed(if e.Status() == 401 then ChallengeFor(c, r, secrets, e) else e)
  }

  class SessionAuthenticator<U, C> {
    const config: SessionConfig<U, C>

    constructor (config: SessionConfig<U, C>)
      ensures this.config == config
    {
      this.config := config;
    }

    method Challenge(r: Request, secrets: Secrets, fallback: AuthError) returns (error: AuthError)
      ensures error == ChallengeFor(config, r, secrets, fallback)
    {
      if config.login.None? {
        return fallback;
      }
      if r.method_ != "GET" {
        return fallback;
      }
      var destination := r.path;
      if |r.query| > 0 {
        destination := destination + "?";
        destination := destination + r.query;
      }
      assert destination == ReturnTo(r);
      match Authorize(config.login.value, destination, secrets) {
        case Ok(redirect) => return Redirect(config.location(redirect.request), redirect.cookies);
        case Err(e) => return e;
      }
    }

    method Authenticate(r: Request, cookieName: string, secrets: Secrets) returns (verdict: Verdict<U>)
      ensures verdict == SessionVerdict(config, r, cookieName, secrets)
    {
      if cookieName !in r.cookies {
        if r.credential != NoCredential {
          return NotApplicable;
        }
        var e := Challenge(r, secrets, Unauthenticated);
        return Failed(e);
      }
      match config.decode(r.cookies[cookieName]) {
        case Err(error) =>
          var e := Challenge(r, secrets, error);
          return Failed(e);
        case Ok(token) =>
          match config.verify(token) {
            case Ok(claims) =>
              var user := config.convert(claims);
              return if user.Some? then Authenticated(user.value) else Failed(Internal);
            case Err(error) =>
              if error.Status() != 401 {
                return Failed(error);
              }
              var e := Challenge(r, secrets, error);
              return Failed(e);
          }
      }
    }
  }

  /** What the cookie says: the request is to be challenged, with this error as the fallback. */
  ghost function Challenged<U, C>(c: SessionConfig<U, C>, r: Request, cookieName: string): Option<AuthError> {
    if cookieName !in r.cookies then (if r.credential == NoCredential then Some(Unauthenticated) else None)
    else match c.decode(r.cookies[cookieName])
         case Err(e) => Some(e)
         case Ok(token) =>
           match c.verify(token)
           case Ok(_) => None
           case Err(e) => if e.Unauthenticated? || e.InvalidCredential? then Some(e) else None
  }

  /** The provider passes the cookie's token and the application makes this user of its claims. */
  ghost predicate Vouched<U, C>(c: SessionConfig<U, C>, r: Request, cookieName: string, u: Option<U>) {
    && cookieName in r.cookies && c.decode(r.cookies[cookieName]).Ok?
    && c.verify(c.decode(r.cookies[cookieName]).value).Ok?
    && c.convert(c.verify(c.decode(r.cookies[cookieName]).value).value) == u
  }

  /** The provider fails for a reason that no login can mend. */
  ghost predicate Fails<U, C>(c: SessionConfig<U, C>, r: Request, cookieName: string, e: AuthError) {
    && cookieName in r.cookies && c.decode(r.cookies[cookieName]).Ok?
    && c.verify(c.decode(r.cookies[cookieName]).value) == Err(e)
    && !e.Unauthenticated? && !e.InvalidCredential?
  }

  /** The codec and the provider report no redirects of their own. */
  ghost predicate PlainErrors<U, C>(c: SessionConfig<U, C>) {
    && (forall raw :: c.decode(raw).Err? ==> !c.decode(raw).error.Redirect?)
    && (forall token :: c.verify(token).Err? ==> !c.verify(token).error.Redirect?)
  }

  /** The page a request comes back to after a login: its path and, behind a question mark, its query. */
  function Page(r: Request): string {
    r.path + (if r.query == "" then "" else "?" + r.query)
  }

  lemma ReturnsToPage(r: Request)
    ensures ReturnTo(r) == Page(r)
  {
    assert r.path + "" == r.path;
  }

  /** A browser is sent to log in exactly when the request is challenged, a login flow is configured, the
      method is GET and the page it would come back to is an acceptable destination. */
  lemma RedirectsIff<U, C>(c: SessionConfig<U, C>, r: Request, cookieName: string, secrets: Secrets)
    requires PlainErrors(c)
    ensures var v := SessionVerdict(c, r, cookieName, secrets);
            (v.Failed? && v.error.Redirect?) <==>
            && Challenged(c, r, cookieName).Some? && c.login.Some? && r.method_ == "GET"
            && Validate(c.login.value.policy, Page(r)) == None
  {
    ReturnsToPage(r);
  }

  /** It then carries the secrets of one new attempt to the issuer, gets the protection cookie for that very
      attempt and page, and loses its session. */
  lemma RedirectCarries<U, C>(c: SessionConfig<U, C>, r: Request, cookieName: string, secrets: Secrets)
    requires PlainErrors(c)
    ensures var v := SessionVerdict(c, r, cookieName, secrets);
            v.Failed? && v.error.Redirect? ==>
              var f := c.login.value;
              var (challenge, verifier) :=
                if f.usesPkce then (Some(f.challenge(secrets.verifier)), Some(secrets.verifier)) else (None, None);
              v.error
              == Redirect(c.location(AuthorizationRequest(secrets.csrf, secrets.nonce, challenge)),
                          [f.protection.Set(f.encode(ProtectionData(secrets.csrf, secrets.nonce, verifier, Page(r)))),
                           f.session.Clear()])
  {
    ReturnsToPage(r);
  }

  /** A user is let in exactly on a cookie the provider and the application vouch for. */
  lemma LetInIff<U, C>(c: SessionConfig<U, C>, r: Request, cookieName: string, secrets: Secrets, u: U)
    ensures SessionVerdict(c, r, cookieName, secrets) == Authenticated(u) <==> Vouched(c, r, cookieName, Some(u))
  {
  }

  /** Every other error: what the challenge falls back to where no login can be begun, a page the policy
      refuses, a failure no login can mend, and claims the application cannot use. */
  lemma RefusedIff<U, C>(c: SessionConfig<U, C>, r: Request, cookieName: string, secrets: Secrets, e: AuthError)
    requires PlainErrors(c) && !e.Redirect?
    ensures SessionVerdict(c, r, cookieName, secrets) == Failed(e) <==>
            || (Challenged(c, r, cookieName) == Some(e) && (c.login.None? || r.method_ != "GET"))
            || (Challenged(c, r, cookieName).Some? && c.login.Some? && r.method_ == "GET"
                && Validate(c.login.value.policy, Page(r)).Some? && e == MalformedCredential)
            || Fails(c, r, cookieName, e)
            || (Vouched(c, r, cookieName, None) && e == Internal)
  {
    ReturnsToPage(r);
  }

  /** With the codec that stores the token verbatim, the cookie's value is the token the provider judges; an
      empty one is challenged like none at all. */
  lemma VerbatimSessions<U, C>(c: SessionConfig<U, C>, r: Request, cookieName: string, secrets: Secrets, u: U)
    requires c.decode == DecodeIdToken && cookieName in r.cookies
    ensures SessionVerdict(c, r, cookieName, secrets) == Authenticated(u) <==>
            && r.cookies[cookieName] != ""
            && c.verify(r.cookies[cookieName]).Ok? && c.convert(c.verify(r.cookies[cookieName]).value) == Some(u)
    ensures r.cookies[cookieName] == "" ==>
              SessionVerdict(c, r, cookieName, secrets)
              == SessionVerdict(c, r.(cookies := map[], credential := NoCredential), cookieName, secrets)
  {
  }

  /** The path of a request being local, so is the page it comes back to. */
  lemma LocalPagesAreAccepted(policy: RedirectPolicy, r: Request)
    requires IsLocalPath(r.path)
    requires forall c :: c in r.path || c in r.query ==> !IsControl(c)
    ensures Validate(policy, Page(r)) == None
  {
    var d := Page(r);
    assert d[0] == '/' && (|d| > 1 ==> d[1] != '/' && d[1] != '\\');
    assert forall c :: c in d ==> c in r.path || c in r.query || c == '?';
  }
}
