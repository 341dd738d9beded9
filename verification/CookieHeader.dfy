/** The `Set-Cookie` text a directive renders to, and the user agent's reading of it (section 5.2 of RFC 6265). */
module CookieHeaders {
  import opened Wrappers
  import opened Strings
  import opened Cookies

  // ---------- printing ----------

  function Digits(n: nat): string {
    if n < 10 then [('0' as int + n) as char] else Digits(n / 10) + [('0' as int + n % 10) as char]
  }

  function SameSiteName(s: SameSite): string {
    match s case Strict => "Strict" case Lax => "Lax" case NoRestriction => "None"
  }

  /** An attribute as a name and, for those that have one, a value. */
  datatype Attribute = Attribute(name: string, value: Option<string>)

  function AttributeText(a: Attribute): string {
    match a.value case None => a.name case Some(v) => a.name + "=" + v
  }

  function OfPath(d: CookieDirective): seq<Attribute> {
    match d.path case None => [] case Some(p) => [Attribute("Path", Some(p))]
  }

  function OfDomain(d: CookieDirective): seq<Attribute> {
    match d.domain case None => [] case Some(x) => [Attribute("Domain", Some(x))]
  }

  function OfMaxAge(d: CookieDirective): seq<Attribute> {
    match d.maxAge case None => [] case Some(t) => [Attribute("Max-Age", Some(Digits(t / NANOS_PER_SECOND)))]
  }

  function OfHttpOnly(d: CookieDirective): seq<Attribute> {
    if d.httpOnly then [Attribute("HttpOnly", None)] else []
  }

  function OfSecure(d: CookieDirective): seq<Attribute> {
    if d.secure then [Attribute("Secure", None)] else []
  }

  function OfSameSite(d: CookieDirective): seq<Attribute> {
    match d.sameSite case None => [] case Some(s) => [Attribute("SameSite", Some(SameSiteName(s)))]
  }

  function Attributes(d: CookieDirective): seq<Attribute> {
    OfPath(d) + OfDomain(d) + OfMaxAge(d) + OfHttpOnly(d) + OfSecure(d) + OfSameSite(d)
  }

  function Tail(attributes: seq<Attribute>): string {
    if attributes == [] then ""
    else Tail(attributes[..|attributes| - 1]) + ("; " + AttributeText(attributes[|attributes| - 1]))
  }

  /** The whole header value. */
  function Printed(d: CookieDirective): string {
    d.name + "=" + d.value + Tail(Attributes(d))
  }

  lemma Associates(a: string, b: string, c: string)
    ensures (a + b) + c == a + (b + c)
  {
  }

  lemma TailGrows(before: seq<Attribute>, a: Attribute)
    ensures Tail(before + [a]) == Tail(before) + ("; " + AttributeText(a))
  {
  }

  /** Writing the text of one more attribute, or of none. */
  lemma Wrote(out: string, front: string, before: seq<Attribute>, kind: seq<Attribute>, text: string)
    requires out == front + Tail(before)
    requires (kind == [] && text == "") || (|kind| == 1 && text == "; " + AttributeText(kind[0]))
    ensures out + text == front + Tail(before + kind)
  {
    if kind == [] {
      assert before + kind == before;
      assert out + text == out;
    } else {
      assert kind == [kind[0]];
      TailGrows(before, kind[0]);
      Associates(front, Tail(before), text);
    }
  }

  function PathPiece(d: CookieDirective): string { if d.path.Some? then "; Path=" + d.path.value else "" }
  function DomainPiece(d: CookieDirective): string { if d.domain.Some? then "; Domain=" + d.domain.value else "" }
  function MaxAgePiece(d: CookieDirective): string {
    if d.maxAge.Some? then "; Max-Age=" + Digits(d.maxAge.value / NANOS_PER_SECOND) else ""
  }
  function HttpOnlyPiece(d: CookieDirective): string { if d.httpOnly then "; HttpOnly" else "" }
  function SecurePiece(d: CookieDirective): string { if d.secure then "; Secure" else "" }
  function SameSitePiece(d: CookieDirective): string {
    if d.sameSite.Some? then "; SameSite=" + SameSiteName(d.sameSite.value) else ""
  }

  lemma PlacePieces(d: CookieDirective)
    ensures d.path.Some? ==> PathPiece(d) == "; " + AttributeText(OfPath(d)[0])
    ensures d.domain.Some? ==> DomainPiece(d) == "; " + AttributeText(OfDomain(d)[0])
    ensures d.maxAge.Some? ==> MaxAgePiece(d) == "; " + AttributeText(OfMaxAge(d)[0])
  {
  }

  lemma RulePieces(d: CookieDirective)
    ensures d.httpOnly ==> HttpOnlyPiece(d) == "; " + AttributeText(OfHttpOnly(d)[0])
    ensures d.secure ==> SecurePiece(d) == "; " + AttributeText(OfSecure(d)[0])
    ensures d.sameSite.Some? ==> SameSitePiece(d) == "; " + AttributeText(OfSameSite(d)[0])
  {
  }

  lemma EmptyPiece(s: string)
    ensures s + "" == s
  {
  }

  /** `Display` writes piece by piece. */
  method Display(d: CookieDirective) returns (out: string)
    ensures out == Printed(d)
  {
    out := d.name + "=" + d.value;
    ghost var front := out;
    EmptyPiece(front);
    out := DisplayPlace(d, out);
    out := DisplayRules(d, out, front, OfPath(d) + OfDomain(d) + OfMaxAge(d));
  }

  /** Where the cookie goes, and for how long. */
  method DisplayPlace(d: CookieDirective, out0: string) returns (out: string)
    ensures out == out0 + Tail(OfPath(d) + OfDomain(d) + OfMaxAge(d))
  {
    PlacePieces(d);
    out := out0;
    EmptyPiece(out);
    Wrote(out, out0, [], OfPath(d), PathPiece(d));
    assert [] + OfPath(d) == OfPath(d);
    if d.path.Some? {
      out := out + ("; Path=" + d.path.value);
    }
    EmptyPiece(out);
    Wrote(out, out0, OfPath(d), OfDomain(d), DomainPiece(d));
    if d.domain.Some? {
      out := out + ("; Domain=" + d.domain.value);
    }
    EmptyPiece(out);
    Wrote(out, out0, OfPath(d) + OfDomain(d), OfMaxAge(d), MaxAgePiece(d));
    if d.maxAge.Some? {
      out := out + ("; Max-Age=" + Digits(d.maxAge.value / NANOS_PER_SECOND));
    }
  }

  /** Who may see it, and when it is sent. */
  method DisplayRules(d: CookieDirective, out0: string, ghost front: string, ghost before: seq<Attribute>)
    returns (out: string)
    requires out0 == front + Tail(before)
    ensures out == front + Tail(before + OfHttpOnly(d) + OfSecure(d) + OfSameSite(d))
  {
    RulePieces(d);
    out := out0;
    EmptyPiece(out);
    Wrote(out, front, before, OfHttpOnly(d), HttpOnlyPiece(d));
    if d.httpOnly {
      out := out + "; HttpOnly";
    }
    EmptyPiece(out);
    Wrote(out, front, before + OfHttpOnly(d), OfSecure(d), SecurePiece(d));
    if d.secure {
      out := out + "; Secure";
    }
    EmptyPiece(out);
    Wrote(out, front, before + OfHttpOnly(d) + OfSecure(d), OfSameSite(d), SameSitePiece(d));
    if d.sameSite.Some? {
      out := out + ("; SameSite=" + SameSiteName(d.sameSite.value));
    }
  }

  // ---------- reading ----------

  /** The white space of RFC 6265: space and tab. */
  predicate IsBlank(c: char) {
    c == ' ' || c == '\t'
  }

  function TrimBlank(s: string): string {
    Trim(s, IsBlank)
  }

  /** What a user agent makes of a header: the cookie, and its attributes with names in lower case. */
  datatype SetCookie = SetCookie(name: string, value: string, attributes: seq<(string, string)>)

  function ReadAttribute(segment: string): (string, string) {
    match SplitOnce(segment, '=')
    case None => (Lowercase(TrimBlank(segment)), "")
    case Some((name, value)) => (Lowercase(TrimBlank(name)), TrimBlank(value))
  }

  function ReadAttributes(segments: seq<string>): seq<(string, string)> {
    if segments == [] then []
    else ReadAttributes(segments[..|segments| - 1]) + [ReadAttribute(segments[|segments| - 1])]
  }

  function Read(header: string): Option<SetCookie> {
    var segments := Split(header, ';');
    match SplitOnce(segments[0], '=')
    case None => None
    case Some((name, value)) =>
      if TrimBlank(name) == "" then None
      else Some(SetCookie(TrimBlank(name), TrimBlank(value), ReadAttributes(segments[1..])))
  }

  // ---------- the round trip ----------

  /** Text that a cookie field can hold: no delimiter, no blank at either end. */
  predicate IsClean(s: string) {
    ';' !in s && HasTrimmedEnds(s, IsBlank)
  }

  predicate IsCleanDirective(d: CookieDirective) {
    && IsClean(d.name) && d.name != "" && '=' !in d.name && IsClean(d.value)
    && (d.path.Some? ==> IsClean(d.path.value)) && (d.domain.Some? ==> IsClean(d.domain.value))
  }

  predicate IsCleanAttribute(a: Attribute) {
    && IsClean(a.name) && a.name != "" && '=' !in a.name && (a.value.Some? ==> IsClean(a.value.value))
  }

  function AsRead(a: Attribute): (string, string) {
    (Lowercase(a.name), if a.value.Some? then a.value.value else "")
  }

  function AllAsRead(attributes: seq<Attribute>): seq<(string, string)> {
    if attributes == [] then [] else AllAsRead(attributes[..|attributes| - 1]) + [AsRead(attributes[|attributes| - 1])]
  }

  lemma {:induction false} DigitsAreClean(n: nat)
    ensures Digits(n) != "" && forall c :: c in Digits(n) ==> '0' <= c <= '9'
  {
    if n >= 10 {
      DigitsAreClean(n / 10);
    }
  }

  lemma LettersAreClean(s: string)
    requires s != "" && forall c :: c in s ==> c == '-' || '0' <= c <= '9' || 'A' <= c <= 'Z' || 'a' <= c <= 'z'
    ensures IsClean(s) && '=' !in s
  {
    assert s[0] in s && s[|s| - 1] in s;
  }

  lemma ValuedIsClean(name: string, v: string)
    requires name != "" && (forall c :: c in name ==> c == '-' || 'A' <= c <= 'Z' || 'a' <= c <= 'z') && IsClean(v)
    ensures IsCleanAttribute(Attribute(name, Some(v)))
  {
    LettersAreClean(name);
  }

  lemma PlaceIsClean(d: CookieDirective)
    requires IsCleanDirective(d)
    ensures forall a :: a in OfPath(d) || a in OfDomain(d) ==> IsCleanAttribute(a)
  {
  }

  lemma MaxAgeIsClean(d: CookieDirective)
    ensures forall a :: a in OfMaxAge(d) ==> IsCleanAttribute(a)
  {
    if d.maxAge.Some? {
      var digits := Digits(d.maxAge.value / NANOS_PER_SECOND);
      DigitsAreClean(d.maxAge.value / NANOS_PER_SECOND);
      LettersAreClean(digits);
      ValuedIsClean("Max-Age", digits);
    }
  }

  lemma RulesAreClean(d: CookieDirective)
    ensures forall a :: a in OfHttpOnly(d) || a in OfSecure(d) || a in OfSameSite(d) ==> IsCleanAttribute(a)
  {
    LettersAreClean("HttpOnly");
    LettersAreClean("Secure");
    if d.sameSite.Some? {
      LettersAreClean(SameSiteName(d.sameSite.value));
      ValuedIsClean("SameSite", SameSiteName(d.sameSite.value));
    }
  }

  lemma AttributesAreClean(d: CookieDirective)
    requires IsCleanDirective(d)
    ensures forall a :: a in Attributes(d) ==> IsCleanAttribute(a)
  {
    PlaceIsClean(d);
    MaxAgeIsClean(d);
    RulesAreClean(d);
  }

  lemma TrimLeading(name: string)
    requires IsClean(name) && name != ""
    ensures TrimBlank(" " + name) == name
  {
    TrimDrops(" ", name, "", IsBlank);
    EmptyPiece(" " + name);
  }

  lemma BlankAndValued(name: string, v: string)
    ensures " " + (name + "=" + v) == (" " + name) + ['='] + v
  {
  }

  lemma ReadValued(name: string, v: string)
    requires IsClean(name) && name != "" && '=' !in name && IsClean(v)
    ensures ReadAttribute(" " + (name + "=" + v)) == (Lowercase(name), v)
  {
    BlankAndValued(name, v);
    SplitOnceOfJoined(" " + name, '=', v);
    TrimLeading(name);
    TrimKeeps(v, IsBlank);
  }

  lemma ReadPlain(name: string)
    requires IsClean(name) && name != "" && '=' !in name
    ensures ReadAttribute(" " + name) == (Lowercase(name), "")
  {
    SplitOnceJoins(" " + name, '=');
    assert '=' !in " " + name;
    TrimLeading(name);
  }

  /** One attribute, after the space that follows its semicolon, is read back. */
  lemma AttributeRoundTrip(a: Attribute)
    requires IsCleanAttribute(a)
    ensures ReadAttribute(" " + AttributeText(a)) == AsRead(a) && ';' !in AttributeText(a)
  {
    match a.value
    case None => ReadPlain(a.name);
    case Some(v) => ReadValued(a.name, v);
  }

  lemma {:induction false} SplitWithout(s: string, c: char)
    requires c !in s
    ensures Split(s, c) == [s]
  {
    if s != "" {
      SplitWithout(s[1..], c);
      assert [s[0]] + s[1..] == s;
    }
  }

  /** A last segment is split off. */
  lemma {:induction false} SplitAtLast(s: string, c: char, last: string)
    requires c !in last
    ensures Split(s + [c] + last, c) == Split(s, c) + [last]
  {
    var t := s + [c] + last;
    if s == "" {
      assert t[1..] == last;
      SplitWithout(last, c);
    } else {
      assert t[1..] == s[1..] + [c] + last;
      SplitAtLast(s[1..], c, last);
    }
  }

  lemma ReadAttributesGrows(segments: seq<string>, last: string)
    ensures ReadAttributes(segments + [last]) == ReadAttributes(segments) + [ReadAttribute(last)]
  {
  }

  lemma SemicolonAndBlank(text: string)
    ensures "; " + text == [';'] + (" " + text)
  {
  }

  /** One more attribute is one more segment. */
  lemma OneMoreSegment(s: string, text: string)
    requires ';' !in text
    ensures Split(s + ("; " + text), ';') == Split(s, ';') + [" " + text]
  {
    var last := " " + text;
    SemicolonAndBlank(text);
    Associates(s, [';'], last);
    SplitAtLast(s, ';', last);
  }

  /** Reading a header with one more attribute. */
  lemma OneMoreRead(text: string, before: seq<Attribute>, a: Attribute)
    requires IsCleanAttribute(a) && ReadAttributes(Split(text, ';')[1..]) == AllAsRead(before)
    ensures var longer := Split(text + ("; " + AttributeText(a)), ';');
            longer[0] == Split(text, ';')[0] && ReadAttributes(longer[1..]) == AllAsRead(before) + [AsRead(a)]
  {
    var segments, last := Split(text, ';'), " " + AttributeText(a);
    AttributeRoundTrip(a);
    OneMoreSegment(text, AttributeText(a));
    assert (segments + [last])[1..] == segments[1..] + [last];
    ReadAttributesGrows(segments[1..], last);
  }

  lemma {:induction false} TailRoundTrip(front: string, attributes: seq<Attribute>)
    requires ';' !in front && forall a :: a in attributes ==> IsCleanAttribute(a)
    ensures Split(front + Tail(attributes), ';')[0] == front
    ensures ReadAttributes(Split(front + Tail(attributes), ';')[1..]) == AllAsRead(attributes)
  {
    if attributes == [] {
      EmptyPiece(front);
      SplitWithout(front, ';');
    } else {
      var before, a := attributes[..|attributes| - 1], attributes[|attributes| - 1];
      TailRoundTrip(front, before);
      OneMoreRead(front + Tail(before), before, a);
      Associates(front, Tail(before), "; " + AttributeText(a));
    }
  }

  /** The user agent reads back what was printed: the name, the value and, in order, every attribute. */
  lemma PrintedRoundTrip(d: CookieDirective)
    requires IsCleanDirective(d)
    ensures Read(Printed(d)) == Some(SetCookie(d.name, d.value, AllAsRead(Attributes(d))))
  {
    var front := d.name + ['='] + d.value;
    AttributesAreClean(d);
    TailRoundTrip(front, Attributes(d));
    assert Printed(d) == front + Tail(Attributes(d));
    SplitOnceOfJoined(d.name, '=', d.value);
    TrimKeeps(d.name, IsBlank);
    TrimKeeps(d.value, IsBlank);
  }

  // ---------- the meaning of the attributes ----------

  /** The last attribute of a name counts. */
  function LastNamed(attributes: seq<(string, string)>, name: string): Option<string> {
    if attributes == [] then None
    else
      var last := attributes[|attributes| - 1];
      if last.0 == name then Some(last.1) else LastNamed(attributes[..|attributes| - 1], name)
  }

  function NumberFrom(s: string): Option<nat> {
    if s == "" then Some(0)
    else
      var last := s[|s| - 1];
      match NumberFrom(s[..|s| - 1])
      case Some(front) => if '0' <= last <= '9' then Some(front * 10 + (last as int - '0' as int)) else None
      case None => None
  }

  /** Section 5.2.2: the seconds, zero or less meaning at once; text that is no number is ignored. */
  function MaxAgeSeconds(v: Option<string>): Option<nat> {
    match v
    case None => None
    case Some(s) =>
      if s == "" then None
      else if s[0] == '-' then (if NumberFrom(s[1..]).Some? then Some(0) else None)
      else NumberFrom(s)
  }

  /** Section 5.2.3: without a leading dot, in lower case; empty counts as absent. */
  function DomainText(v: Option<string>): Option<string> {
    match v
    case None => None
    case Some(s) => if s == "" then None else Some(Lowercase(if s[0] == '.' then s[1..] else s))
  }

  /** Section 5.2.4: only a path that starts with a slash counts. */
  function PathText(v: Option<string>): Option<string> {
    match v
    case None => None
    case Some(s) => if s != "" && s[0] == '/' then Some(s) else None
  }

  lemma {:induction false} NumberFromDigits(n: nat)
    ensures NumberFrom(Digits(n)) == Some(n)
  {
    if n >= 10 {
      NumberFromDigits(n / 10);
      var s := Digits(n);
      assert s[..|s| - 1] == Digits(n / 10);
    } else {
      assert Digits(n)[..0] == "";
    }
  }

  lemma {:induction false} LastNamedOfParts(a: seq<(string, string)>, b: seq<(string, string)>, name: string)
    ensures LastNamed(a + b, name) == if LastNamed(b, name).Some? then LastNamed(b, name) else LastNamed(a, name)
  {
    if b == [] {
      assert a + b == a;
    } else {
      var n := |b| - 1;
      assert (a + b)[..|a + b| - 1] == a + b[..n];
      LastNamedOfParts(a, b[..n], name);
    }
  }

  lemma {:induction false} AllAsReadOfParts(a: seq<Attribute>, b: seq<Attribute>)
    ensures AllAsRead(a + b) == AllAsRead(a) + AllAsRead(b)
  {
    if b == [] {
      assert a + b == a;
    } else {
      var n := |b| - 1;
      assert (a + b)[..|a + b| - 1] == a + b[..n];
      AllAsReadOfParts(a, b[..n]);
    }
  }

  /** The attribute with a given name, as read from a list of attributes. */
  function ReadNamed(attributes: seq<Attribute>, name: string): Option<string> {
    LastNamed(AllAsRead(attributes), name)
  }

  lemma ReadNamedOfParts(a: seq<Attribute>, b: seq<Attribute>, name: string)
    ensures ReadNamed(a + b, name) == if ReadNamed(b, name).Some? then ReadNamed(b, name) else ReadNamed(a, name)
  {
    AllAsReadOfParts(a, b);
    LastNamedOfParts(AllAsRead(a), AllAsRead(b), name);
  }

  lemma ReadNamedOfOne(a: Attribute, name: string)
    ensures ReadNamed([a], name) == if Lowercase(a.name) == name then Some(if a.value.Some? then a.value.value else "")
        else None
  {
    assert [a][..0] == [] && [AsRead(a)][..0] == [];
    assert AllAsRead([a]) == [AsRead(a)];
    assert LastNamed([], name) == None;
    assert LastNamed([AsRead(a)], name) == if AsRead(a).0 == name then Some(AsRead(a).1)
        else LastNamed([AsRead(a)][..0], name);
  }

  lemma NamesInLowerCase()
    ensures Lowercase("Path") == "path" && Lowercase("Domain") == "domain" && Lowercase("Max-Age") == "max-age"
    ensures Lowercase("HttpOnly") == "httponly" && Lowercase("Secure") == "secure"
        && Lowercase("SameSite") == "samesite"
  {
  }

  /** Looking for `name` in the attributes printed for `d` looks at each kind in turn. */
  lemma ReadFromPrinted(d: CookieDirective, name: string)
    ensures var place := ReadFromPlace(d, name);
            ReadNamed(Attributes(d), name) ==
            if ReadNamed(OfSameSite(d), name).Some? then ReadNamed(OfSameSite(d), name)
            else if ReadNamed(OfSecure(d), name).Some? then ReadNamed(OfSecure(d), name)
            else if ReadNamed(OfHttpOnly(d), name).Some? then ReadNamed(OfHttpOnly(d), name)
            else place
  {
    var place := OfPath(d) + OfDomain(d) + OfMaxAge(d);
    ReadNamedOfParts(place + OfHttpOnly(d) + OfSecure(d), OfSameSite(d), name);
    ReadNamedOfParts(place + OfHttpOnly(d), OfSecure(d), name);
    ReadNamedOfParts(place, OfHttpOnly(d), name);
    ReadNamedOfParts(OfPath(d) + OfDomain(d), OfMaxAge(d), name);
    ReadNamedOfParts(OfPath(d), OfDomain(d), name);
  }

  function ReadFromPlace(d: CookieDirective, name: string): Option<string> {
    if ReadNamed(OfMaxAge(d), name).Some? then ReadNamed(OfMaxAge(d), name)
    else if ReadNamed(OfDomain(d), name).Some? then ReadNamed(OfDomain(d), name)
    else ReadNamed(OfPath(d), name)
  }

  lemma ReadFromValued(d: CookieDirective, name: string)
    ensures ReadNamed(OfPath(d), name) == if name == "path" then d.path else None
    ensures ReadNamed(OfDomain(d), name) == if name == "domain" then d.domain else None
    ensures ReadNamed(OfMaxAge(d), name)
            == if name == "max-age" && d.maxAge.Some? then Some(Digits(d.maxAge.value / NANOS_PER_SECOND)) else None
  {
    NamesInLowerCase();
    if d.path.Some? { ReadNamedOfOne(OfPath(d)[0], name); }
    if d.domain.Some? { ReadNamedOfOne(OfDomain(d)[0], name); }
    if d.maxAge.Some? { ReadNamedOfOne(OfMaxAge(d)[0], name); }
  }

  lemma ReadFromRules(d: CookieDirective, name: string)
    ensures ReadNamed(OfHttpOnly(d), name) == if name == "httponly" && d.httpOnly then Some("") else None
    ensures ReadNamed(OfSecure(d), name) == if name == "secure" && d.secure then Some("") else None
    ensures ReadNamed(OfSameSite(d), name) == if name == "samesite" && d.sameSite.Some?
        then Some(SameSiteName(d.sameSite.value)) else None
  {
    NamesInLowerCase();
    if d.httpOnly { ReadNamedOfOne(OfHttpOnly(d)[0], name); }
    if d.secure { ReadNamedOfOne(OfSecure(d)[0], name); }
    if d.sameSite.Some? { ReadNamedOfOne(OfSameSite(d)[0], name); }
  }

  lemma PathRecovered(d: CookieDirective)
    ensures ReadNamed(Attributes(d), "path") == d.path
  {
    ReadFromPrinted(d, "path");
    ReadFromValued(d, "path");
    ReadFromRules(d, "path");
  }

  lemma DomainRecovered(d: CookieDirective)
    ensures ReadNamed(Attributes(d), "domain") == d.domain
  {
    ReadFromPrinted(d, "domain");
    ReadFromValued(d, "domain");
    ReadFromRules(d, "domain");
  }

  lemma MaxAgeRecovered(d: CookieDirective)
    ensures MaxAgeSeconds(ReadNamed(Attributes(d), "max-age")) == if d.maxAge.Some?
        then Some(d.maxAge.value / NANOS_PER_SECOND) else None
  {
    ReadFromPrinted(d, "max-age");
    ReadFromValued(d, "max-age");
    ReadFromRules(d, "max-age");
    if d.maxAge.Some? {
      SecondsFromDigits(d.maxAge.value / NANOS_PER_SECOND);
    }
  }

  lemma SecondsFromDigits(n: nat)
    ensures MaxAgeSeconds(Some(Digits(n))) == Some(n)
  {
    NumberFromDigits(n);
    DigitsAreClean(n);
    assert Digits(n)[0] in Digits(n);
  }

  lemma FlagsRecovered(d: CookieDirective)
    ensures ReadNamed(Attributes(d), "httponly").Some? <==> d.httpOnly
    ensures ReadNamed(Attributes(d), "secure").Some? <==> d.secure
  {
    ReadFromPrinted(d, "httponly");
    ReadFromValued(d, "httponly");
    ReadFromRules(d, "httponly");
    ReadFromPrinted(d, "secure");
    ReadFromValued(d, "secure");
    ReadFromRules(d, "secure");
  }

  lemma SameSiteRecovered(d: CookieDirective)
    ensures ReadNamed(Attributes(d), "samesite") == if d.sameSite.Some? then Some(SameSiteName(d.sameSite.value))
        else None
  {
    ReadFromPrinted(d, "samesite");
    ReadFromValued(d, "samesite");
    ReadFromRules(d, "samesite");
  }

  /** Every attribute is recovered: the path and domain as the user agent keeps them, the lifetime to
      whole seconds, both flags, and the same-site rule. */
  lemma AttributesRecovered(d: CookieDirective)
    requires IsCleanDirective(d)
    ensures Read(Printed(d)).Some?
    ensures var c := Read(Printed(d)).value;
            && c.name == d.name && c.value == d.value
            && PathText(LastNamed(c.attributes, "path")) == PathText(d.path)
            && DomainText(LastNamed(c.attributes, "domain")) == DomainText(d.domain)
            && MaxAgeSeconds(LastNamed(c.attributes, "max-age"))
                 == (if d.maxAge.Some? then Some(d.maxAge.value / 1_000_000_000) else None)
            && (LastNamed(c.attributes, "httponly").Some? <==> d.httpOnly)
            && (LastNamed(c.attributes, "secure").Some? <==> d.secure)
            && LastNamed(c.attributes, "samesite")
                 == (match d.sameSite
                       case None => None
                       case Some(Strict) => Some("Strict")
                       case Some(Lax) => Some("Lax")
                       case Some(NoRestriction) => Some("None"))
  {
    PrintedRoundTrip(d);
    PathRecovered(d);
    DomainRecovered(d);
    MaxAgeRecovered(d);
    FlagsRecovered(d);
    SameSiteRecovered(d);
  }
}
