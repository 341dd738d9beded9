/** A browser's cookie store (section 5.3 of RFC 6265), fed with the headers this code prints. */
module CookieJars {
  import opened Wrappers
  import opened Cookies
  import opened CookieHeaders

  /** Cookies are told apart by name, domain and path. */
  datatype Identity = Identity(name: string, domain: string, path: string)

  /** A cookie with no expiry time lasts for the browser session. */
  datatype StoredCookie = StoredCookie(value: string, expires: Option<nat>)

  type Jar = map<Identity, StoredCookie>

  /** The request a header came in answer to: its host in lower case, and its default path. */
  datatype Context = Context(host: string, defaultPath: string)

  /** Section 5.1.3, for host names. */
  predicate DomainMatches(host: string, domain: string) {
    host == domain || (|host| > |domain| && host[|host| - |domain|..] == domain && host[|host| - |domain| - 1] == '.')
  }

  function IdentityOf(c: SetCookie, at: Context): Identity {
    var domain := DomainText(LastNamed(c.attributes, "domain"));
    var path := PathText(LastNamed(c.attributes, "path"));
    Identity(c.name,
             if domain.Some? then domain.value else at.host,
             if path.Some? then path.value else at.defaultPath)
  }

  /** A cookie for a domain the host does not belong to is ignored; one whose lifetime is over takes the
      cookie of the same identity with it. */
  function Receive(jar: Jar, c: SetCookie, at: Context, now: nat): Jar {
    var domain := DomainText(LastNamed(c.attributes, "domain"));
    var seconds := MaxAgeSeconds(LastNamed(c.attributes, "max-age"));
    if domain.Some? && !DomainMatches(at.host, domain.value) then jar
    else if seconds == Some(0) then jar - {IdentityOf(c, at)}
    else jar[IdentityOf(c, at) := StoredCookie(c.value, if seconds.Some? then Some(now + seconds.value) else None)]
  }

  /** Handing the browser one `Set-Cookie` header, as text. */
  function ReceiveText(jar: Jar, header: string, at: Context, now: nat): Jar {
    match Read(header) case None => jar case Some(c) => Receive(jar, c, at, now)
  }

  function ReceiveAll(jar: Jar, directives: seq<CookieDirective>, at: Context, now: nat): Jar {
    if directives == [] then jar
    else ReceiveText(ReceiveAll(jar, directives[..|directives| - 1], at, now), Printed(directives[|directives| - 1]),
        at, now)
  }

  /** The value the browser has for a cookie, until it expires. */
  function Presented(jar: Jar, id: Identity, now: nat): Option<string> {
    if id in jar && (jar[id].expires.None? || now < jar[id].expires.value) then Some(jar[id].value) else None
  }

  // ---------- the two directives of one setting ----------

  predicate IsCleanSettings(s: CookieSettings) {
    && IsClean(s.name) && s.name != "" && '=' !in s.name && IsClean(s.path)
    && (s.domain.Some? ==> IsClean(s.domain.value))
  }

  /** The identity of the settings' cookie when its header answers the request `at`. */
  function IdentityFor(s: CookieSettings, at: Context): Identity {
    var domain := DomainText(s.domain);
    var path := PathText(Some(s.path));
    Identity(s.name,
             if domain.Some? then domain.value else at.host,
             if path.Some? then path.value else at.defaultPath)
  }

  /** The browser takes cookies of these settings from the host. */
  predicate Accepted(s: CookieSettings, at: Context) {
    DomainText(s.domain).Some? ==> DomainMatches(at.host, DomainText(s.domain).value)
  }

  lemma SetIsRead(s: CookieSettings, value: string, at: Context)
    requires IsCleanSettings(s) && IsClean(value)
    ensures Read(Printed(s.Set(value))).Some?
    ensures var c := Read(Printed(s.Set(value))).value;
            && c.value == value && IdentityOf(c, at) == IdentityFor(s, at)
            && DomainText(LastNamed(c.attributes, "domain")) == DomainText(s.domain)
            && MaxAgeSeconds(LastNamed(c.attributes, "max-age")) == Some(s.maxAge / NANOS_PER_SECOND)
  {
    AttributesRecovered(s.Set(value));
  }

  lemma ClearIsRead(s: CookieSettings, at: Context)
    requires IsCleanSettings(s)
    ensures Read(Printed(s.Clear())).Some?
    ensures var c := Read(Printed(s.Clear())).value;
            && IdentityOf(c, at) == IdentityFor(s, at)
            && DomainText(LastNamed(c.attributes, "domain")) == DomainText(s.domain)
            && MaxAgeSeconds(LastNamed(c.attributes, "max-age")) == Some(0)
  {
    AttributesRecovered(s.Clear());
  }

  /** No script reads these cookies, and they keep the settings' secure flag and same-site rule; the header
      that clears one carries the same protections as the header that sets it. */
  lemma ProtectionsAreSent(s: CookieSettings, value: string)
    requires IsCleanSettings(s) && IsClean(value)
    ensures Read(Printed(s.Set(value))).Some? && Read(Printed(s.Clear())).Some?
    ensures forall header :: header == Printed(s.Set(value)) || header == Printed(s.Clear()) ==>
              var c := Read(header).value;
              && LastNamed(c.attributes, "httponly").Some?
              && (LastNamed(c.attributes, "secure").Some? <==> s.secure)
              && LastNamed(c.attributes, "samesite")
                   == (match s.sameSite
                         case None => None
                         case Some(Strict) => Some("Strict")
                         case Some(Lax) => Some("Lax")
                         case Some(NoRestriction) => Some("None"))
  {
    AttributesRecovered(s.Set(value));
    AttributesRecovered(s.Clear());
  }

  /** A directive made from a name and a value alone is for this session and this host, and is sent with every
      protection; one made from a name to clear it ends at once. */
  lemma DefaultsAreProtective(name: string, value: string)
    requires IsClean(name) && name != "" && '=' !in name && IsClean(value)
    ensures Read(Printed(SetDirective(name, value))).Some? && Read(Printed(ClearDirective(name))).Some?
    ensures Read(Printed(SetDirective(name, value))).value.value == value
    ensures forall header :: header == Printed(SetDirective(name, value)) || header == Printed(ClearDirective(name)) ==>
              var c := Read(header).value;
              && c.name == name
              && LastNamed(c.attributes, "httponly").Some? && LastNamed(c.attributes, "secure").Some?
              && LastNamed(c.attributes, "samesite") == Some("Lax")
              && DomainText(LastNamed(c.attributes, "domain")) == None
              && PathText(LastNamed(c.attributes, "path")) == None
              && MaxAgeSeconds(LastNamed(c.attributes, "max-age"))
                 == (if header == Printed(SetDirective(name, value)) then None else Some(0))
  {
    AttributesRecovered(SetDirective(name, value));
    AttributesRecovered(ClearDirective(name));
  }

  lemma ReceiveStores(jar: Jar, c: SetCookie, at: Context, now: nat, seconds: nat)
    requires DomainText(LastNamed(c.attributes, "domain")).Some? ==>
               DomainMatches(at.host, DomainText(LastNamed(c.attributes, "domain")).value)
    requires MaxAgeSeconds(LastNamed(c.attributes, "max-age")) == Some(seconds)
    ensures Receive(jar, c, at, now) ==
            if seconds == 0 then jar - {IdentityOf(c, at)}
            else jar[IdentityOf(c, at) := StoredCookie(c.value, Some(now + seconds))]
  {
  }

  /** A set header stores the value for whole seconds, under the settings' identity; a lifetime below a
      second prints as zero, and removes the cookie instead. */
  lemma SetStores(s: CookieSettings, value: string, jar: Jar, at: Context, now: nat)
    requires IsCleanSettings(s) && IsClean(value) && Accepted(s, at)
    ensures ReceiveText(jar, Printed(s.Set(value)), at, now)
            == if s.maxAge < NANOS_PER_SECOND then jar - {IdentityFor(s, at)}
               else jar[IdentityFor(s, at) := StoredCookie(value, Some(now + s.maxAge / NANOS_PER_SECOND))]
  {
    SetIsRead(s, value, at);
    ReceiveStores(jar, Read(Printed(s.Set(value))).value, at, now, s.maxAge / NANOS_PER_SECOND);
  }

  /** A clear header removes the cookie of the settings' identity, and nothing else. */
  lemma ClearRemoves(s: CookieSettings, jar: Jar, at: Context, now: nat)
    requires IsCleanSettings(s) && Accepted(s, at)
    ensures ReceiveText(jar, Printed(s.Clear()), at, now) == jar - {IdentityFor(s, at)}
  {
    ClearIsRead(s, at);
    ReceiveStores(jar, Read(Printed(s.Clear())).value, at, now, 0);
  }

  /** Clearing undoes setting, whatever pages of one host the two headers answer, exactly if the settings'
      path starts with a slash, or the two requests have the same default path, or nothing was set because
      the lifetime is below a second. */
  lemma ClearCancelsSetIff(
    s: CookieSettings, value: string, jar: Jar, at: Context, later: Context, now: nat, then_: nat)
    requires IsCleanSettings(s) && IsClean(value)
    requires at.host == later.host && Accepted(s, at)
    ensures var after :=
        ReceiveText(ReceiveText(jar, Printed(s.Set(value)), at, now), Printed(s.Clear()), later, then_);
            IdentityFor(s, at) !in after <==>
            (s.path != "" && s.path[0] == '/') || at.defaultPath == later.defaultPath || s.maxAge < NANOS_PER_SECOND
  {
    SetStores(s, value, jar, at, now);
    var between := ReceiveText(jar, Printed(s.Set(value)), at, now);
    ClearRemoves(s, between, later, then_);
  }

  lemma RemovalForgets<K, V>(m: map<K, V>, k: K, v: V)
    ensures m[k := v] - {k} == m - {k} && m - {k} - {k} == m - {k}
  {
  }

  /** Other cookies are not touched. */
  lemma SetThenClearLeavesTheRest(s: CookieSettings, value: string, jar: Jar, at: Context, now: nat, then_: nat)
    requires IsCleanSettings(s) && IsClean(value) && Accepted(s, at)
    ensures ReceiveText(ReceiveText(jar, Printed(s.Set(value)), at, now), Printed(s.Clear()), at, then_)
            == jar - {IdentityFor(s, at)}
  {
    SetStores(s, value, jar, at, now);
    ClearRemoves(s, ReceiveText(jar, Printed(s.Set(value)), at, now), at, then_);
    RemovalForgets(jar, IdentityFor(s, at), StoredCookie(value, Some(now + s.maxAge / NANOS_PER_SECOND)));
  }

  lemma ReceivesLast(jar: Jar, before: seq<CookieDirective>, last: CookieDirective, at: Context, now: nat)
    ensures ReceiveAll(jar, before + [last], at, now)
        == ReceiveText(ReceiveAll(jar, before, at, now), Printed(last), at, now)
  {
    assert (before + [last])[..|before|] == before;
  }

  /** The jar after setting one cookie and clearing another, in this order. */
  function SetThenCleared(
    set_: CookieSettings, value: string, cleared: CookieSettings, jar: Jar, at: Context, now: nat): Jar
  {
    (if set_.maxAge < NANOS_PER_SECOND then jar - {IdentityFor(set_, at)}
     else jar[IdentityFor(set_, at) := StoredCookie(value, Some(now + set_.maxAge / NANOS_PER_SECOND))]) -
         {IdentityFor(cleared, at)}
  }

  lemma SetThenClearedStores(
    set_: CookieSettings, value: string, cleared: CookieSettings, jar: Jar, at: Context, now: nat)
    requires IdentityFor(set_, at) != IdentityFor(cleared, at) && set_.maxAge >= NANOS_PER_SECOND
    ensures var after := SetThenCleared(set_, value, cleared, jar, at, now);
            && IdentityFor(set_, at) in after && IdentityFor(cleared, at) !in after
            && after[IdentityFor(set_, at)] == StoredCookie(value, Some(now + set_.maxAge / NANOS_PER_SECOND))
  {
  }

  lemma SetThenClearedHolds(
    set_: CookieSettings, value: string, cleared: CookieSettings, jar: Jar, at: Context, now: nat, id: Identity)
    requires IdentityFor(set_, at) != IdentityFor(cleared, at) && set_.maxAge >= NANOS_PER_SECOND && id in jar
    ensures var after := SetThenCleared(set_, value, cleared, jar, at, now);
            && IdentityFor(set_, at) in after && after[IdentityFor(set_, at)].value == value
            && (id !in after <==> id == IdentityFor(cleared, at))
  {
  }

  /** Both halves of a login answer with one cookie set and one cleared. */
  lemma SetsOneClearsOther(
    set_: CookieSettings, value: string, cleared: CookieSettings, jar: Jar, at: Context, now: nat)
    requires IsCleanSettings(set_) && IsCleanSettings(cleared) && IsClean(value)
    requires Accepted(set_, at) && Accepted(cleared, at)
    ensures ReceiveAll(jar, [set_.Set(value), cleared.Clear()], at, now)
        == SetThenCleared(set_, value, cleared, jar, at, now)
  {
    ReceivesLast(jar, [], set_.Set(value), at, now);
    ReceivesLast(jar, [set_.Set(value)], cleared.Clear(), at, now);
    assert [set_.Set(value), cleared.Clear()] == [set_.Set(value)] + [cleared.Clear()]
        && [] + [set_.Set(value)] == [set_.Set(value)];
    SetStores(set_, value, jar, at, now);
    ClearRemoves(cleared, ReceiveText(jar, Printed(set_.Set(value)), at, now), at, now);
  }

  /** After a completed login, whose answer sets the session and clears the protection cookie, the jar
      holds the session and not the protection cookie exactly if their identities differ and the session
      lasts at least a second. */
  lemma CompletedLoginCookiesIff(
    session: CookieSettings, protection: CookieSettings, value: string, jar: Jar, at: Context, now: nat)
    requires IsCleanSettings(session) && IsCleanSettings(protection) && IsClean(value)
    requires Accepted(session, at) && Accepted(protection, at)
    ensures var after := ReceiveAll(jar, [session.Set(value), protection.Clear()], at, now);
            && (IdentityFor(session, at) in after && IdentityFor(protection, at) !in after <==>
                  IdentityFor(session, at) != IdentityFor(protection, at) && session.maxAge >= NANOS_PER_SECOND)
            && IdentityFor(protection, at) !in after
            && (IdentityFor(session, at) in after ==> after[IdentityFor(session, at)].value == value)
  {
    SetsOneClearsOther(session, value, protection, jar, at, now);
  }
}
