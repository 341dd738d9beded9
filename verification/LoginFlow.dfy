/**
 The authorization-code login: `authorize` mints the secrets of one attempt and stores them in the
 protection cookie, `complete` checks the callback against that cookie. Runs interleave any number of
 attempts, by any number of browsers, with whatever the issuer is asked and whatever callbacks arrive.
 */
module LoginFlows {
  import opened Wrappers
  import opened AuthTypes
  import opened Cookies
  import opened RedirectPolicies

  datatype ProtectionData = ProtectionData(
    csrf: string, nonce: string, pkceVerifier: Option<string>, destination: string)

  /** The parameters of the authorization endpoint. */
  datatype AuthorizationRequest = AuthorizationRequest(state: string, nonce: string, challenge: Option<string>)

  datatype AuthorizationRedirect = AuthorizationRedirect(request: AuthorizationRequest, cookies: seq<CookieDirective>)

  datatype IdToken = IdToken(text: string, subject: string, nonce: Option<string>)

  /** `encode`/`decode` carry the protection data, `encodeSession` the session; `challenge` is the
      S256 transform of PKCE. */
  datatype Flow = Flow(
    policy: RedirectPolicy, usesPkce: bool, encode: ProtectionData -> string, decode: string -> Option<ProtectionData>,
    encodeSession: IdToken -> Result<string, AuthError>, challenge: string -> string,
    session: CookieSettings, protection: CookieSettings)

  /** Decoding gives back what was encoded. */
  ghost predicate FaithfulCodec(f: Flow) {
    forall d :: f.decode(f.encode(d)) == Some(d)
  }

  /** The random values of one attempt. */
  datatype Secrets = Secrets(csrf: string, nonce: string, verifier: string)

  function Protect(f: Flow, destination: string, r: Secrets): ProtectionData {
    ProtectionData(r.csrf, r.nonce, if f.usesPkce then Some(r.verifier) else None, destination)
  }

  function RequestFor(f: Flow, d: ProtectionData): AuthorizationRequest {
    AuthorizationRequest(d.csrf, d.nonce, if d.pkceVerifier.Some? then Some(f.challenge(d.pkceVerifier.value))
        else None)
  }

  function Authorize(f: Flow, destination: string, r: Secrets): Result<AuthorizationRedirect, AuthError> {
    if Validate(f.policy, destination).Some? then Err(MalformedCredential)
    else
      var d := Protect(f, destination, r);
      Ok(AuthorizationRedirect(RequestFor(f, d), [f.protection.Set(f.encode(d)), f.session.Clear()]))
  }

  /** A refused destination begins nothing. Any other attempt sends its state, its nonce and, with PKCE, the
      transform of its verifier to the issuer; the verifier itself goes to the browser alone, with the state,
      the nonce and the destination, in the cookie the callback is held against. */
  lemma AuthorizeSends(f: Flow, destination: string, csrf: string, nonce: string, verifier: string)
    ensures Authorize(f, destination, Secrets(csrf, nonce, verifier))
            == if Validate(f.policy, destination) != None then Err(MalformedCredential)
               else if f.usesPkce then
                 Ok(AuthorizationRedirect(
                      AuthorizationRequest(csrf, nonce, Some(f.challenge(verifier))),
                      [f.protection.Set(f.encode(ProtectionData(csrf, nonce, Some(verifier), destination))),
                       f.session.Clear()]))
               else
                 Ok(AuthorizationRedirect(
                      AuthorizationRequest(csrf, nonce, None),
                      [f.protection.Set(f.encode(ProtectionData(csrf, nonce, None, destination))), f.session.Clear()]))
  {
  }

  lemma AuthorizedCookies(f: Flow, destination: string, r: Secrets)
    requires Authorize(f, destination, r).Ok?
    ensures Authorize(f, destination, r).value.cookies
            == [f.protection.Set(f.encode(Protect(f, destination, r))), f.session.Clear()]
  {
  }

  // ---------- the callback ----------

  datatype CallbackParams =
    | Success(code: string, state: string)
    | Failure(error: string, description: Option<string>)

  /** The value of the last parameter of that name. */
  function LastValue(pairs: seq<(string, string)>, name: string): Option<string> {
    if pairs == [] then None
    else
      var last := pairs[|pairs| - 1];
      if last.0 == name then Some(last.1) else LastValue(pairs[..|pairs| - 1], name)
  }

  /** Earlier occurrences of a name do not count. */
  lemma {:induction false} LastValueIff(pairs: seq<(string, string)>, name: string, value: string)
    ensures LastValue(pairs, name) == Some(value) <==>
            exists i :: 0 <= i < |pairs| && pairs[i] == (name, value)
                && forall j :: i < j < |pairs| ==> pairs[j].0 != name
    ensures LastValue(pairs, name) == None <==> forall i :: 0 <= i < |pairs| ==> pairs[i].0 != name
  {
    if pairs != [] {
      var n := |pairs| - 1;
      LastValueIff(pairs[..n], name, value);
      assert pairs[n].0 == name && pairs[n].1 == value ==> pairs[n] == (name, value);
    }
  }

  /** Reads the decoded query. An error wins over everything; otherwise both code and state are needed. */
  method FromQuery(pairs: seq<(string, string)>) returns (r: Result<CallbackParams, AuthError>)
    ensures LastValue(pairs, "error").Some? ==>
              r == Ok(Failure(LastValue(pairs, "error").value, LastValue(pairs, "error_description")))
    ensures LastValue(pairs, "error").None? && LastValue(pairs, "code").Some? && LastValue(pairs, "state").Some? ==>
              r == Ok(Success(LastValue(pairs, "code").value, LastValue(pairs, "state").value))
    ensures LastValue(pairs, "error").None? && (LastValue(pairs, "code").None? || LastValue(pairs, "state").None?) ==>
              r == Err(MalformedCredential)
  {
    var code, state, error, description := None, None, None, None;
    var i := 0;
    while i < |pairs|
      invariant 0 <= i <= |pairs|
      invariant code == LastValue(pairs[..i], "code") && state == LastValue(pairs[..i], "state")
      invariant error == LastValue(pairs[..i], "error") && description == LastValue(pairs[..i], "error_description")
    {
      var (key, value) := pairs[i];
      assert pairs[..i + 1][..i] == pairs[..i];
      if key == "code" {
        code := Some(value);
      } else if key == "state" {
        state := Some(value);
      } else if key == "error" {
        error := Some(value);
      } else if key == "error_description" {
        description := Some(value);
      }
      i := i + 1;
    }
    assert pairs[..|pairs|] == pairs;
    if error.Some? {
      return Ok(Failure(error.value, description));
    }
    if code.Some? && state.Some? {
      return Ok(Success(code.value, state.value));
    }
    return Err(MalformedCredential);
  }

  /** What `complete` checked and concluded, in the order it does. */
  datatype LoginComplete = LoginComplete(subject: string, redirectTo: string, cookies: seq<CookieDirective>)

  /** The token endpoint's answer to a code and a verifier, and whether the token passes verification
      apart from its nonce. */
  datatype Exchanged = Exchanged(answer: Result<Option<IdToken>, AuthError>, verifies: Result<(), AuthError>)

  function Complete(
    f: Flow, callback: CallbackParams, cookie: Option<string>, exchange: (string, Option<string>) -> Exchanged)
    : Result<LoginComplete, AuthError>
  {
    match callback
    case Failure(error, _) => Err(if error == "access_denied" then Unauthenticated else Upstream)
    case Success(code, state) =>
      if cookie.None? || f.decode(cookie.value).None? then Err(Unauthenticated)
      else
        var protection := f.decode(cookie.value).value;
        if state != protection.csrf then Err(Unauthenticated)
        else
          var exchanged := exchange(code, protection.pkceVerifier);
          match exchanged.answer
          case Err(e) => Err(e)
          case Ok(None) => Err(Upstream)
          case Ok(Some(token)) =>
            if exchanged.verifies.Err? then Err(exchanged.verifies.error)
            else if token.nonce != Some(protection.nonce) then Err(InvalidCredential)
            else
              match f.encodeSession(token)
              case Err(e) => Err(e)
              case Ok(value) =>
                Ok(LoginComplete(token.subject, protection.destination, [f.session.Set(value), f.protection.Clear()]))
  }

  /** A callback is completed exactly if it reports no error, comes with a cookie that decodes, brings back
      the cookie's state, its code yields a token with the cookie's verifier, the token is verified and has
      the cookie's nonce, and its session can be encoded. It then leads where the cookie says, with the
      session of that token. */
  lemma CompleteIff(
    f: Flow, callback: CallbackParams, cookie: Option<string>, exchange: (string, Option<string>) -> Exchanged,
    result: LoginComplete)
    ensures Complete(f, callback, cookie, exchange) == Ok(result) <==>
            && callback.Success? && cookie.Some? && f.decode(cookie.value).Some?
            && var d := f.decode(cookie.value).value;
            var exchanged := exchange(callback.code, d.pkceVerifier);
            && callback.state == d.csrf
            && exchanged.answer.Ok? && exchanged.answer.value.Some? && exchanged.verifies.Ok?
            && var token := exchanged.answer.value.value;
            && token.nonce == Some(d.nonce) && f.encodeSession(token).Ok?
            && result == LoginComplete(token.subject, d.destination,
                                       [f.session.Set(f.encodeSession(token).value), f.protection.Clear()])
  {
  }

  /** The callbacks refused before the code is sent, and why. */
  lemma RefusedUnasked(
    f: Flow, callback: CallbackParams, cookie: Option<string>, exchange: (string, Option<string>) -> Exchanged)
    ensures callback.Failure? ==>
              Complete(f, callback, cookie, exchange)
              == Err(if callback.error == "access_denied" then Unauthenticated else Upstream)
    ensures callback.Success?
            && (cookie.None? || f.decode(cookie.value).None? || callback.state != f.decode(cookie.value).value.csrf) ==>
              Complete(f, callback, cookie, exchange) == Err(Unauthenticated)
  {
  }

  /** What becomes of the others, by what the code yields: the first failure is the answer. */
  lemma RefusedAsked(
    f: Flow, code: string, raw: string, d: ProtectionData, exchange: (string, Option<string>) -> Exchanged,
    e: AuthError)
    requires f.decode(raw) == Some(d)
    ensures var exchanged := exchange(code, d.pkceVerifier);
            Complete(f, Success(code, d.csrf), Some(raw), exchange) == Err(e) <==>
            || exchanged.answer == Err(e)
            || (exchanged.answer == Ok(None) && e == Upstream)
            || (exchanged.answer.Ok? && exchanged.answer.value.Some? &&
                  var token := exchanged.answer.value.value;
                  || exchanged.verifies == Err(e)
                  || (exchanged.verifies.Ok? && token.nonce != Some(d.nonce) && e == InvalidCredential)
                  || (exchanged.verifies.Ok? && token.nonce == Some(d.nonce) && f.encodeSession(token) == Err(e)))
  {
  }

  /** The session text of a completed login. */
  function SessionText(
    f: Flow, callback: CallbackParams, cookie: Option<string>, exchange: (string, Option<string>) -> Exchanged): string
    requires Complete(f, callback, cookie, exchange).Ok?
  {
    f.encodeSession(exchange(callback.code, f.decode(cookie.value).value.pkceVerifier).answer.value.value).value
  }

  lemma CompletedCookies(
    f: Flow, callback: CallbackParams, cookie: Option<string>, exchange: (string, Option<string>) -> Exchanged)
    requires Complete(f, callback, cookie, exchange).Ok?
    ensures Complete(f, callback, cookie, exchange).value.cookies
            == [f.session.Set(SessionText(f, callback, cookie, exchange)), f.protection.Clear()]
  {
  }

  /** A callback that does not belong to the cookie is refused before the code is sent anywhere: whatever
      the token endpoint would say, the answer is the same error. */
  lemma ForgedCallbackAsksNobody(
    f: Flow, callback: CallbackParams, cookie: Option<string>, one: (string, Option<string>) -> Exchanged,
    other: (string, Option<string>) -> Exchanged)
    requires callback.Failure? || cookie.None? || f.decode(cookie.value).None?
        || callback.state != f.decode(cookie.value).value.csrf
    ensures Complete(f, callback, cookie, one) == Complete(f, callback, cookie, other)
        && Complete(f, callback, cookie, one).Err?
  {
  }

  // ---------- runs ----------

  /** A begun login: its data, and the cookie that carries them. */
  datatype Attempt = Attempt(data: ProtectionData, cookie: string)

  /** A successful `complete`, with what it was given and what the verification of its token said. */
  datatype Login = Login(
    code: string, state: string, cookie: string, verified: Result<(), AuthError>, result: LoginComplete)

  /** `grants` are the codes the issuer has given out, each for the request it answered. */
  datatype State = State(attempts: seq<Attempt>, grants: map<string, AuthorizationRequest>, logins: seq<Login>)

  /** The issuer: a code is good with a verifier that fits the challenge of its request, as often as it is
      presented, and yields a token with the nonce of that request. Otherwise it refuses. */
  function TokenEndpoint(
    f: Flow, s: State, subject: string, verifies: Result<(), AuthError>): (string, Option<string>) -> Exchanged
  {
    (code: string, verifier: Option<string>) =>
      if code in s.grants
         && (s.grants[code].challenge.Some? ==>
              verifier.Some? && f.challenge(verifier.value) == s.grants[code].challenge.value)
      then Exchanged(Ok(Some(IdToken(code, subject, Some(s.grants[code].nonce)))), verifies)
      else Exchanged(Err(InvalidCredential), verifies)
  }

  datatype Step =
    | Begin(destination: string, secrets: Secrets)
    | Issue(code: string, request: AuthorizationRequest)
    | Finish(code: string, state: string, cookie: Option<string>, subject: string, verifies: Result<(), AuthError>)

  predicate FreshSecrets(s: State, r: Secrets) {
    && (forall i :: 0 <= i < |s.attempts| ==> s.attempts[i].data.csrf != r.csrf && s.attempts[i].data.nonce != r.nonce)
    && (forall code :: code in s.grants ==> s.grants[code].nonce != r.nonce)
  }

  /** The issuer answers a request that some attempt sent the browser with, or one made elsewhere, which
      cannot carry a nonce it does not know. */
  predicate Plausible(f: Flow, s: State, request: AuthorizationRequest) {
    || (exists i :: 0 <= i < |s.attempts| && request == RequestFor(f, s.attempts[i].data))
    || (forall i :: 0 <= i < |s.attempts| ==> s.attempts[i].data.nonce != request.nonce)
  }

  predicate Enabled(f: Flow, s: State, step: Step) {
    match step
    case Begin(_, secrets) => FreshSecrets(s, secrets)
    case Issue(code, request) => code !in s.grants && Plausible(f, s, request)
    case Finish(_, _, _, _, _) => true
  }

  function Take(f: Flow, s: State, step: Step): State {
    match step
    case Begin(destination, secrets) =>
      if Authorize(f, destination, secrets).Err? then s
      else
        var d := Protect(f, destination, secrets);
        s.(attempts := s.attempts + [Attempt(d, f.encode(d))])
    case Issue(code, request) => s.(grants := s.grants[code := request])
    case Finish(code, state, cookie, subject, verifies) =>
      match cookie
      case None => s
      case Some(raw) =>
        var endpoint := TokenEndpoint(f, s, subject, verifies);
        match Complete(f, Success(code, state), cookie, endpoint)
        case Err(_) => s
        case Ok(result) => s.(logins := s.logins + [Login(code, state, raw, verifies, result)])
  }

  ghost predicate IsRun(f: Flow, run: seq<State>) {
    && run != [] && run[0] == State([], map[], [])
    && forall i :: 0 <= i < |run| - 1 ==> Follows(f, run[i], run[i + 1])
  }

  ghost predicate Follows(f: Flow, s: State, s': State) {
    exists step :: Enabled(f, s, step) && s' == Take(f, s, step)
  }

  // ---------- what a login is bound to ----------

  /** The login used the state of attempt `i`, a code issued for that attempt's own request, hence for
      its nonce and for the challenge of its PKCE verifier, and a token that was verified, and leads where
      that attempt said. */
  ghost predicate BoundTo(f: Flow, s: State, login: Login, i: nat) {
    && i < |s.attempts| && login.verified.Ok?
    && login.cookie == s.attempts[i].cookie && login.state == s.attempts[i].data.csrf
    && login.result.redirectTo == s.attempts[i].data.destination
    && login.code in s.grants && s.grants[login.code] == RequestFor(f, s.attempts[i].data)
  }

  ghost predicate FromAuthorize(s: State, cookie: string) {
    exists i :: 0 <= i < |s.attempts| && s.attempts[i].cookie == cookie
  }

  ghost predicate AttemptsInv(f: Flow, s: State) {
    && (forall i :: 0 <= i < |s.attempts| ==>
          s.attempts[i].cookie == f.encode(s.attempts[i].data)
              && Validate(f.policy, s.attempts[i].data.destination) == None)
    && (forall i, j :: 0 <= i < j < |s.attempts| ==>
          s.attempts[i].data.csrf != s.attempts[j].data.csrf && s.attempts[i].data.nonce != s.attempts[j].data.nonce)
  }

  /** A code whose request carries an attempt's nonce was issued for that attempt's request. */
  ghost predicate GrantsInv(f: Flow, s: State) {
    forall code, i :: code in s.grants && 0 <= i < |s.attempts| && s.grants[code].nonce == s.attempts[i].data.nonce ==>
      s.grants[code] == RequestFor(f, s.attempts[i].data)
  }

  /** A login went through on data some cookie decoded to, with a code whose request has its nonce, and a
      token that was verified. */
  ghost predicate Checked(f: Flow, s: State, login: Login) {
    && login.verified.Ok?
    && f.decode(login.cookie).Some?
    && login.state == f.decode(login.cookie).value.csrf
    && login.result.redirectTo == f.decode(login.cookie).value.destination
    && login.code in s.grants && s.grants[login.code].nonce == f.decode(login.cookie).value.nonce
  }

  ghost predicate Inv(f: Flow, s: State) {
    && AttemptsInv(f, s) && GrantsInv(f, s)
    && (forall k :: 0 <= k < |s.logins| ==> Checked(f, s, s.logins[k]))
  }

  lemma BeginKeepsInv(f: Flow, s: State, destination: string, secrets: Secrets)
    requires Inv(f, s) && Enabled(f, s, Begin(destination, secrets))
    ensures Inv(f, Take(f, s, Begin(destination, secrets)))
  {
  }

  lemma IssueKeepsInv(f: Flow, s: State, code: string, request: AuthorizationRequest)
    requires Inv(f, s) && Enabled(f, s, Issue(code, request))
    ensures Inv(f, Take(f, s, Issue(code, request)))
  {
    var s' := Take(f, s, Issue(code, request));
    if i :| 0 <= i < |s.attempts| && request == RequestFor(f, s.attempts[i].data) {
      assert forall j :: 0 <= j < |s.attempts| && s.attempts[j].data.nonce == request.nonce ==> j == i;
    }
    forall k | 0 <= k < |s'.logins| ensures Checked(f, s', s'.logins[k]) {
      assert Checked(f, s, s.logins[k]);
    }
  }

  lemma FinishKeepsInv(f: Flow, s: State, step: Step)
    requires Inv(f, s) && step.Finish?
    ensures Inv(f, Take(f, s, step))
  {
    var s' := Take(f, s, step);
    forall k | 0 <= k < |s'.logins| ensures Checked(f, s', s'.logins[k]) {
      if k < |s.logins| { assert Checked(f, s, s.logins[k]); }
    }
  }

  lemma {:induction false} RunKeepsInv(f: Flow, run: seq<State>, i: nat)
    requires IsRun(f, run) && i < |run|
    ensures Inv(f, run[i])
  {
    if i > 0 {
      RunKeepsInv(f, run, i - 1);
      assert Follows(f, run[i - 1], run[i - 1 + 1]);
      var step :| Enabled(f, run[i - 1], step) && run[i] == Take(f, run[i - 1], step);
      match step
      case Begin(destination, secrets) => BeginKeepsInv(f, run[i - 1], destination, secrets);
      case Issue(code, request) => IssueKeepsInv(f, run[i - 1], code, request);
      case Finish(_, _, _, _, _) => FinishKeepsInv(f, run[i - 1], step);
    }
  }

  /** However attempts interleave: a login whose protection cookie came from `authorize` used the state,
      verifier and nonce of exactly one attempt, with a code issued for that attempt's own request; it
      leads to that attempt's destination, which the policy accepts, and its token was verified. */
  lemma LoginIsBoundToOneAttempt(f: Flow, run: seq<State>, k: nat, n: nat) returns (i: nat)
    requires FaithfulCodec(f) && IsRun(f, run) && k < |run| && n < |run[k].logins|
    requires FromAuthorize(run[k], run[k].logins[n].cookie)
    ensures BoundTo(f, run[k], run[k].logins[n], i)
    ensures forall j :: BoundTo(f, run[k], run[k].logins[n], j) ==> j == i
    ensures Validate(f.policy, run[k].logins[n].result.redirectTo) == None
  {
    var s, login := run[k], run[k].logins[n];
    RunKeepsInv(f, run, k);
    i :| 0 <= i < |s.attempts| && s.attempts[i].cookie == login.cookie;
    assert f.decode(f.encode(s.attempts[i].data)) == Some(s.attempts[i].data);
    assert Checked(f, s, login);
  }

  /** A callback that brings back the state of an attempt, with its cookie and a code issued for its
      request, is completed: the token has the attempt's nonce, and the user goes where the attempt said. */
  lemma HonestCallbackCompletes(f: Flow, s: State, d: ProtectionData, code: string, subject: string)
    requires f.decode(f.encode(d)) == Some(d) && f.encodeSession(IdToken(code, subject, Some(d.nonce))).Ok?
    requires code in s.grants && s.grants[code] == RequestFor(f, d)
    ensures Complete(f, Success(code, d.csrf), Some(f.encode(d)), TokenEndpoint(f, s, subject, Ok(())))
            == Ok(LoginComplete(subject, d.destination,
                                [f.session.Set(f.encodeSession(IdToken(code, subject, Some(d.nonce))).value),
                                    f.protection.Clear()]))
  {
    assert f.decode(f.encode(d)) == Some(d);
  }
}
