/** Where a user may be sent after a login, and how the prefix test relates to parsing a URL. */
module RedirectPolicies {
  import opened Wrappers
  import opened Strings

  datatype RedirectPolicy = RelativeOnly | Allowlist(origins: seq<string>)

  datatype Rejection = ControlCharacter | ProtocolRelative | OnlyRelative | NotListed

  /** The Unicode category Cc. */
  predicate IsControl(c: char) {
    c < ' ' || '\U{7F}' <= c <= '\U{9F}'
  }

  function TrimEndSlashes(s: string): string {
    if s != [] && s[|s| - 1] == '/' then TrimEndSlashes(s[..|s| - 1]) else s
  }

  predicate IsDelimiter(c: char) {
    c == '/' || c == '?' || c == '#'
  }

  predicate IsWithinOrigin(url: string, origin: string) {
    match StripPrefix(url, TrimEndSlashes(origin))
    case None => false
    case Some(rest) => rest == "" || IsDelimiter(rest[0])
  }

  /** Why a destination is refused, if it is. */
  function Validate(policy: RedirectPolicy, destination: string): Option<Rejection> {
    if exists c :: c in destination && IsControl(c) then Some(ControlCharacter)
    else if StartsWith(destination, "/") then
      if StartsWith(destination, "//") || StartsWith(destination, "/\\") then Some(ProtocolRelative) else None
    else match policy
         case RelativeOnly => Some(OnlyRelative)
         case Allowlist(origins) =>
           if exists i :: 0 <= i < |origins| && IsWithinOrigin(destination, origins[i]) then None else Some(NotListed)
  }

  // ---------- the parser it is compared with ----------

  datatype Origin = Origin(scheme: string, authority: string)

  predicate IsLetter(c: char) {
    'a' <= c <= 'z' || 'A' <= c <= 'Z'
  }

  /** A scheme as in section 3.1 of RFC 3986. */
  predicate IsScheme(s: string) {
    s != [] && IsLetter(s[0])
    && forall c :: c in s ==> IsLetter(c) || '0' <= c <= '9' || c == '+' || c == '-' || c == '.'
  }

  predicate EndsAuthority(c: char) {
    c in {'/', '?', '#'}
  }

  function UntilDelimiter(s: string): string {
    if s == [] || EndsAuthority(s[0]) then [] else [s[0]] + UntilDelimiter(s[1..])
  }

  /** The scheme and authority of an absolute URL, as in section 3.2 of RFC 3986: the authority begins
      after `//` and ends at the first `/`, `?`, `#` or the end. */
  function ParseOrigin(url: string): Option<Origin> {
    match SplitOnce(url, ':')
    case None => None
    case Some((scheme, rest)) =>
      if IsScheme(scheme) && StartsWith(rest, "//") then Some(Origin(scheme, UntilDelimiter(rest[2..]))) else None
  }

  /** An allow-list entry for an origin, with any number of trailing slashes. */
  function Entry(o: Origin, slashes: nat): string {
    o.scheme + "://" + o.authority + Slashes(slashes)
  }

  function Slashes(n: nat): string {
    if n == 0 then "" else Slashes(n - 1) + "/"
  }

  predicate IsAuthority(s: string) {
    forall c :: c in s ==> !EndsAuthority(c)
  }

  lemma {:induction false} TrimRemovesSlashes(base: string, n: nat)
    requires base != [] && base[|base| - 1] != '/'
    ensures TrimEndSlashes(base + Slashes(n)) == base
  {
    if n == 0 {
      assert base + Slashes(0) == base;
    } else {
      var s := base + Slashes(n);
      assert s[..|s| - 1] == base + Slashes(n - 1);
      TrimRemovesSlashes(base, n - 1);
    }
  }

  lemma {:induction false} UntilDelimiterIff(s: string, a: string)
    requires IsAuthority(a)
    ensures UntilDelimiter(s) == a <==> a <= s && (|s| == |a| || EndsAuthority(s[|a|]))
  {
    if a != [] && s != [] && !EndsAuthority(s[0]) {
      UntilDelimiterIff(s[1..], a[1..]);
      assert a == [a[0]] + a[1..] && s == [s[0]] + s[1..];
      if a <= s { assert a[1..] <= s[1..]; }
      if a[0] == s[0] && a[1..] <= s[1..] {
        assert forall i :: 0 <= i < |a| ==> a[i] == s[i] by {
          forall i | 0 < i < |a| ensures a[i] == s[i] { assert a[1..][i - 1] == s[1..][i - 1]; }
        }
      }
    }
  }

  lemma UntilDelimiterIsAuthority(s: string)
    ensures IsAuthority(UntilDelimiter(s))
  {
  }

  /** The text of an origin, and what follows it. */
  ghost predicate BeginsWithOrigin(url: string, o: Origin, tail: string) {
    url == o.scheme + "://" + o.authority + tail && (tail == "" || EndsAuthority(tail[0]))
  }

  lemma TextParses(url: string, o: Origin, tail: string)
    requires IsScheme(o.scheme) && IsAuthority(o.authority) && BeginsWithOrigin(url, o, tail)
    ensures ParseOrigin(url) == Some(o)
  {
    var body := o.authority + tail;
    assert ':' !in o.scheme;
    assert url == o.scheme + [':'] + ("//" + body);
    SplitOnceOfJoined(o.scheme, ':', "//" + body);
    assert ("//" + body)[2..] == body;
    UntilDelimiterIff(body, o.authority);
  }

  lemma OriginText(scheme: string, authority: string, tail: string)
    ensures scheme + [':'] + ("//" + (authority + tail)) == scheme + "://" + authority + tail
  {
  }

  lemma ParsedIsText(url: string, o: Origin) returns (tail: string)
    requires ParseOrigin(url) == Some(o)
    ensures BeginsWithOrigin(url, o, tail)
  {
    SplitOnceJoins(url, ':');
    var rest := SplitOnce(url, ':').value.1;
    var body := rest[2..];
    assert rest == "//" + body;
    UntilDelimiterIsAuthority(body);
    UntilDelimiterIff(body, o.authority);
    tail := body[|o.authority|..];
    assert body == o.authority + tail;
    OriginText(o.scheme, o.authority, tail);
  }

  /** Parsing to a given origin is starting with its text and ending there or at a delimiter. */
  lemma ParsesToIff(url: string, o: Origin)
    requires IsScheme(o.scheme) && IsAuthority(o.authority)
    ensures var base := o.scheme + "://" + o.authority;
            ParseOrigin(url) == Some(o) <==> base <= url && (|url| == |base| || EndsAuthority(url[|base|]))
  {
    var base := o.scheme + "://" + o.authority;
    if base <= url && (|url| == |base| || EndsAuthority(url[|base|])) {
      TextParses(url, o, url[|base|..]);
    }
    if ParseOrigin(url) == Some(o) {
      var tail := ParsedIsText(url, o);
      assert url == base + tail;
    }
  }

  /** For an entry with an authority, the prefix test accepts a URL exactly when it parses to that
      scheme and authority. */
  lemma PrefixTestIsParsing(url: string, o: Origin, slashes: nat)
    requires IsScheme(o.scheme) && IsAuthority(o.authority) && o.authority != ""
    ensures IsWithinOrigin(url, Entry(o, slashes)) <==> ParseOrigin(url) == Some(o)
  {
    var base := o.scheme + "://" + o.authority;
    assert base[|base| - 1] == o.authority[|o.authority| - 1] && o.authority[|o.authority| - 1] in o.authority;
    TrimRemovesSlashes(base, slashes);
    assert TrimEndSlashes(Entry(o, slashes)) == base;
    ParsesToIff(url, o);
  }

  /** An entry with nothing after `://` is cut back to the scheme and its colon. */
  lemma EmptyAuthorityIsCutBack(scheme: string, slashes: nat)
    requires IsScheme(scheme)
    ensures TrimEndSlashes(Entry(Origin(scheme, ""), slashes)) == scheme + ":"
  {
    var colon := scheme + ":";
    assert Slashes(2) == "//" by { assert Slashes(1) == "/"; }
    SlashesAdd(2, slashes);
    assert Entry(Origin(scheme, ""), slashes) == colon + Slashes(2 + slashes);
    assert colon[|colon| - 1] == ':';
    TrimRemovesSlashes(colon, 2 + slashes);
  }

  /** So it accepts a URL that parses to another authority. */
  lemma EmptyAuthorityAcceptsAnother(scheme: string, slashes: nat) returns (url: string)
    requires IsScheme(scheme)
    ensures IsWithinOrigin(url, Entry(Origin(scheme, ""), slashes)) && ParseOrigin(url) == Some(Origin(scheme, "a"))
  {
    url := scheme + ":" + "//a";
    EmptyAuthorityIsCutBack(scheme, slashes);
    assert url[|scheme + ":"|..] == "//a";
    assert BeginsWithOrigin(url, Origin(scheme, "a"), "");
    TextParses(url, Origin(scheme, "a"), "");
  }

  /** The prefix test agrees with parsing, for all URLs, exactly when the entry has an authority. */
  lemma PrefixTestIsParsingIff(o: Origin, slashes: nat)
    requires IsScheme(o.scheme) && IsAuthority(o.authority)
    ensures (forall url :: IsWithinOrigin(url, Entry(o, slashes)) <==> ParseOrigin(url) == Some(o)) <==>
        o.authority != ""
  {
    if o.authority != "" {
      forall url ensures IsWithinOrigin(url, Entry(o, slashes)) <==> ParseOrigin(url) == Some(o) {
        PrefixTestIsParsing(url, o, slashes);
      }
    } else {
      var url := EmptyAuthorityAcceptsAnother(o.scheme, slashes);
    }
  }

  lemma {:induction false} SlashesAdd(m: nat, n: nat)
    ensures Slashes(m + n) == Slashes(m) + Slashes(n)
  {
    if n > 0 {
      SlashesAdd(m, n - 1);
    } else {
      assert Slashes(m) + Slashes(0) == Slashes(m);
    }
  }

  // ---------- the whole policy ----------

  /** An entry of an allow list, as the origin it stands for. */
  ghost predicate Lists(policy: RedirectPolicy, origins: seq<Origin>) {
    match policy
    case RelativeOnly => origins == []
    case Allowlist(entries) =>
      |entries| == |origins| && forall i :: 0 <= i < |origins| ==> IsEntry(entries[i], origins[i])
  }

  ghost predicate IsEntry(entry: string, o: Origin) {
    IsScheme(o.scheme) && IsAuthority(o.authority) && o.authority != "" && exists n: nat :: entry == Entry(o, n)
  }

  /** A path on the same origin, as a browser reads it that takes `\` for `/`. */
  predicate IsLocalPath(d: string) {
    d != [] && d[0] == '/' && (|d| == 1 || (d[1] != '/' && d[1] != '\\'))
  }

  /** Why a destination is refused: for a control character before anything else, then for naming a host
      without a scheme, then by the policy. */
  lemma RefusedFor(policy: RedirectPolicy, d: string)
    ensures Validate(policy, d) == Some(ControlCharacter) <==>
            exists c :: c in d && (c as int < 0x20 || 0x7F <= c as int <= 0x9F)
    ensures Validate(policy, d) == Some(ProtocolRelative) <==>
            && (forall c :: c in d ==> 0x20 <= c as int && !(0x7F <= c as int <= 0x9F))
            && |d| > 1 && d[0] == '/' && (d[1] == '/' || d[1] == '\\')
    ensures policy.RelativeOnly? && Validate(policy, d).Some? && (d == "" || d[0] != '/') ==>
              Validate(policy, d).value == OnlyRelative || Validate(policy, d).value == ControlCharacter
    ensures policy.Allowlist? && Validate(policy, d).Some? && (d == "" || d[0] != '/') ==>
              Validate(policy, d).value == NotListed || Validate(policy, d).value == ControlCharacter
  {
    ControlIff();
  }

  lemma ControlIff()
    ensures forall c :: IsControl(c) <==> c as int < 0x20 || 0x7F <= c as int <= 0x9F
  {
  }

  /** Without control characters, a destination is accepted exactly if it is a local path, or it does not
      begin with `/` and parses to a listed origin. */
  lemma AcceptedIff(policy: RedirectPolicy, origins: seq<Origin>, d: string)
    requires Lists(policy, origins)
    ensures Validate(policy, d) == None <==>
            && (forall c :: c in d ==> 0x20 <= c as int && !(0x7F <= c as int <= 0x9F))
            && (IsLocalPath(d)
                 || (!StartsWith(d, "/") && exists i :: 0 <= i < |origins| && ParseOrigin(d) == Some(origins[i])))
  {
    if policy.Allowlist? {
      forall i | 0 <= i < |origins|
        ensures IsWithinOrigin(d, policy.origins[i]) <==> ParseOrigin(d) == Some(origins[i])
      {
        assert IsEntry(policy.origins[i], origins[i]);
        var n: nat :| policy.origins[i] == Entry(origins[i], n);
        PrefixTestIsParsing(d, origins[i], n);
      }
    }
  }
}
