/** A login seen from the browser: what the jar holds after `authorize` and after `complete`. */
module LoginCookies {
  import opened Wrappers
  import opened Cookies
  import opened CookieHeaders
  import opened CookieJars
  import opened RedirectPolicies
  import opened LoginFlows

  /** Both cookies can be stored by this browser, last at least a second and are told apart by it. */
  predicate CookiesWork(f: Flow, at: Context) {
    && IsCleanSettings(f.session) && f.session.maxAge >= NANOS_PER_SECOND && Accepted(f.session, at)
    && IsCleanSettings(f.protection) && f.protection.maxAge >= NANOS_PER_SECOND && Accepted(f.protection, at)
    && IdentityFor(f.session, at) != IdentityFor(f.protection, at)
  }

  /** `authorize` answers with the protection cookie set and the session cleared, and so leaves the jar. */
  lemma AuthorizedJar(f: Flow, destination: string, r: Secrets, value: string, jar: Jar, at: Context, now: nat)
    requires CookiesWork(f, at) && Authorize(f, destination, r).Ok?
    requires value == f.encode(Protect(f, destination, r)) && IsClean(value)
    ensures ReceiveAll(jar, Authorize(f, destination, r).value.cookies, at, now)
            == SetThenCleared(f.protection, value, f.session, jar, at, now)
  {
    AuthorizedCookies(f, destination, r);
    SetsOneClearsOther(f.protection, value, f.session, jar, at, now);
  }

  /** After `authorize` the jar holds this attempt's protection cookie, in place of any older one, and no session. */
  lemma AuthorizeLeavesProtection(f: Flow, destination: string, r: Secrets, jar: Jar, at: Context, now: nat)
    requires CookiesWork(f, at) && IsClean(f.encode(Protect(f, destination, r)))
    requires Authorize(f, destination, r).Ok?
    ensures var after := ReceiveAll(jar, Authorize(f, destination, r).value.cookies, at, now);
            && IdentityFor(f.protection, at) in after && IdentityFor(f.session, at) !in after
            && after[IdentityFor(f.protection, at)]
               == StoredCookie(f.encode(Protect(f, destination, r)), Some(now + f.protection.maxAge / NANOS_PER_SECOND))
  {
    var value := f.encode(Protect(f, destination, r));
    var after := SetThenCleared(f.protection, value, f.session, jar, at, now);
    assert ReceiveAll(jar, Authorize(f, destination, r).value.cookies, at, now) == after by {
      AuthorizedJar(f, destination, r, value, jar, at, now);
    }
    var stored := StoredCookie(value, Some(now + f.protection.maxAge / NANOS_PER_SECOND));
    assert IdentityFor(f.session, at) !in after && IdentityFor(f.protection, at) in after
      && after[IdentityFor(f.protection, at)] == stored by {
      SetThenClearedStores(f.protection, value, f.session, jar, at, now);
    }
  }

  /** `complete` answers with the session set and the protection cookie cleared, and so leaves the jar. */
  lemma CompletedJar(
    f: Flow, callback: CallbackParams, cookie: Option<string>, exchange: (string, Option<string>) -> Exchanged,
    jar: Jar, at: Context, now: nat)
    requires CookiesWork(f, at) && Complete(f, callback, cookie, exchange).Ok?
    requires IsClean(SessionText(f, callback, cookie, exchange))
    ensures ReceiveAll(jar, Complete(f, callback, cookie, exchange).value.cookies, at, now)
            == SetThenCleared(f.session, SessionText(f, callback, cookie, exchange), f.protection, jar, at, now)
  {
    CompletedCookies(f, callback, cookie, exchange);
    SetsOneClearsOther(f.session, SessionText(f, callback, cookie, exchange), f.protection, jar, at, now);
  }

  /** After `complete` the jar holds the new session, and the spent protection cookie is gone. */
  lemma CompleteLeavesSession(
    f: Flow, callback: CallbackParams, cookie: Option<string>, exchange: (string, Option<string>) -> Exchanged,
    jar: Jar, at: Context, now: nat)
    requires CookiesWork(f, at) && Complete(f, callback, cookie, exchange).Ok?
    requires IsClean(SessionText(f, callback, cookie, exchange))
    ensures var after := ReceiveAll(jar, Complete(f, callback, cookie, exchange).value.cookies, at, now);
            && IdentityFor(f.protection, at) !in after && IdentityFor(f.session, at) in after
            && after[IdentityFor(f.session, at)].value == SessionText(f, callback, cookie, exchange)
  {
    CompletedJar(f, callback, cookie, exchange, jar, at, now);
  }

  /** A replayed callback is refused before its code is sent anywhere, whatever the issuer would answer,
      exactly if the page of the callback clears the protection cookie the browser has under the identity
      `id`, or that cookie has expired by then. */
  lemma ReplayIsRefusedIff(
    f: Flow, callback: CallbackParams, cookie: string, exchange: (string, Option<string>) -> Exchanged,
    jar: Jar, id: Identity, at: Context, now: nat, later: nat)
    requires CookiesWork(f, at) && Complete(f, callback, Some(cookie), exchange).Ok?
    requires IsClean(SessionText(f, callback, Some(cookie), exchange))
    requires Presented(jar, id, now) == Some(cookie) && IdentityFor(f.session, at) != id
    ensures var after := ReceiveAll(jar, Complete(f, callback, Some(cookie), exchange).value.cookies, at, now);
            (forall other: (string, Option<string>) -> Exchanged ::
               Complete(f, callback, Presented(after, id, later), other).Err?)
            <==> id == IdentityFor(f.protection, at) || Presented(jar, id, later) == None
  {
    CompletedJar(f, callback, Some(cookie), exchange, jar, at, now);
    var after := ReceiveAll(jar, Complete(f, callback, Some(cookie), exchange).value.cookies, at, now);
    if id == IdentityFor(f.protection, at) || Presented(jar, id, later) == None {
      assert Presented(after, id, later) == None;
    } else {
      assert Presented(after, id, later) == Some(cookie);
      assert Complete(f, callback, Presented(after, id, later), exchange).Ok?;
    }
  }

  /** An honest login: the browser is sent from one page (`at`) to an issuer that answers that very request,
      and brings back to another (`at'`) what `authorize` stored. It is completed exactly if it comes back
      before the protection cookie expires; then the user arrives at the destination with a session, and
      nothing is left over exactly if the two pages agree on the identity of the protection cookie. */
  lemma HonestLoginSucceedsIff(
    f: Flow, destination: string, r: Secrets, jar: Jar, at: Context, now: nat, at': Context, later: nat,
    s: State, code: string, subject: string)
    requires CookiesWork(f, at) && CookiesWork(f, at') && Validate(f.policy, destination) == None
    requires var d := Protect(f, destination, r); IsClean(f.encode(d)) && f.decode(f.encode(d)) == Some(d)
    requires var session := f.encodeSession(IdToken(code, subject, Some(r.nonce)));
        session.Ok? && IsClean(session.value)
    requires code in s.grants && s.grants[code] == RequestFor(f, Protect(f, destination, r))
    ensures var id := IdentityFor(f.protection, at);
            var jar1 := ReceiveAll(jar, Authorize(f, destination, r).value.cookies, at, now);
            var completed :=
                Complete(f, Success(code, r.csrf), Presented(jar1, id, later), TokenEndpoint(f, s, subject, Ok(())));
            && (completed.Ok? <==> later < now + f.protection.maxAge / NANOS_PER_SECOND)
            && (completed.Ok? ==>
                  var jar2 := ReceiveAll(jar1, completed.value.cookies, at', later);
                  && completed.value.redirectTo == destination && completed.value.subject == subject
                  && IdentityFor(f.session, at') in jar2
                  && jar2[IdentityFor(f.session, at')].value
                       == f.encodeSession(IdToken(code, subject, Some(r.nonce))).value
                  && (id !in jar2 <==> id == IdentityFor(f.protection, at')))
  {
    var d, id := Protect(f, destination, r), IdentityFor(f.protection, at);
    AuthorizeLeavesProtection(f, destination, r, jar, at, now);
    var jar1 := ReceiveAll(jar, Authorize(f, destination, r).value.cookies, at, now);
    if later < now + f.protection.maxAge / NANOS_PER_SECOND {
      HonestCallback(f, s, d, code, subject, jar1, id, at', later);
    }
  }

  /** The callback of an attempt whose cookie the jar still holds. */
  lemma HonestCallback(
    f: Flow, s: State, d: ProtectionData, code: string, subject: string, jar: Jar, id: Identity, at: Context, now: nat)
    requires f.decode(f.encode(d)) == Some(d) && CookiesWork(f, at)
    requires var session := f.encodeSession(IdToken(code, subject, Some(d.nonce)));
        session.Ok? && IsClean(session.value)
    requires code in s.grants && s.grants[code] == RequestFor(f, d)
    requires Presented(jar, id, now) == Some(f.encode(d))
    ensures var completed :=
        Complete(f, Success(code, d.csrf), Presented(jar, id, now), TokenEndpoint(f, s, subject, Ok(())));
            && completed.Ok?
            && var after := ReceiveAll(jar, completed.value.cookies, at, now);
            && completed.value.redirectTo == d.destination && completed.value.subject == subject
            && IdentityFor(f.session, at) in after
            && after[IdentityFor(f.session, at)].value == f.encodeSession(IdToken(code, subject, Some(d.nonce))).value
            && (id !in after <==> id == IdentityFor(f.protection, at))
  {
    var text := f.encodeSession(IdToken(code, subject, Some(d.nonce))).value;
    HonestCallbackCompletes(f, s, d, code, subject);
    SetsOneClearsOther(f.session, text, f.protection, jar, at, now);
    SetThenClearedHolds(f.session, text, f.protection, jar, at, now, id);
  }
}
