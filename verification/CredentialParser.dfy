/** The `Authorization` header: its parser, and the rendering of section 2 of RFC 7617 it inverts. */
module CredentialParsing {
  import opened Wrappers
  import opened Strings
  import opened AuthTypes
  import opened Base64
  import opened Utf8

  /** The Unicode property White_Space. */
  predicate IsWhitespace(c: char) {
    || '\U{9}' <= c <= '\U{D}' || c == ' ' || c == '\U{85}' || c == '\U{A0}' || c == '\U{1680}'
    || '\U{2000}' <= c <= '\U{200A}' || c == '\U{2028}' || c == '\U{2029}' || c == '\U{202F}' || c == '\U{205F}'
    || c == '\U{3000}'
  }

  function TrimSpace(s: string): string {
    Trim(s, IsWhitespace)
  }

  function ParseBasic(parameter: string): Credential {
    match Decode(parameter)
    case None => Malformed("basic", "not valid base64")
    case Some(bytes) =>
      match Text(bytes)
      case None => Malformed("basic", "not valid UTF-8")
      case Some(text) =>
        match SplitOnce(text, ':')
        case None => Malformed("basic", "missing ':' separator")
        case Some((id, secret)) => Basic(id, secret)
  }

  function FromAuthorizationHeader(header: string): Credential {
    match SplitOnce(TrimSpace(header), ' ')
    case None => NoCredential
    case Some((scheme, parameter)) =>
      var lowercase := Lowercase(scheme);
      if lowercase == "bearer" then Bearer(TrimSpace(parameter))
      else if lowercase == "basic" then ParseBasic(TrimSpace(parameter))
      else Other(lowercase, TrimSpace(parameter))
  }

  /** The parameter a client sends for an id and a secret. */
  function RenderBasic(id: string, secret: string): string {
    Encode(Bytes(id + [':'] + secret))
  }

  // ---------- the parameter ----------

  /** The parser accepts exactly the canonical rendering of an id without a colon. */
  lemma ParseBasicIff(parameter: string, id: string, secret: string)
    ensures ParseBasic(parameter) == Basic(id, secret) <==> ':' !in id && parameter == RenderBasic(id, secret)
    ensures RenderBasic(id, secret) == Encode(Bytes(id + ":" + secret))
  {
    var text := id + [':'] + secret;
    if ':' !in id && parameter == RenderBasic(id, secret) {
      DecodeEncode(Bytes(text));
      TextOfBytes(text);
      SplitOnceOfJoined(id, ':', secret);
    }
    if ParseBasic(parameter) == Basic(id, secret) {
      var bytes := Decode(parameter).value;
      EncodeDecode(parameter);
      BytesOfText(bytes, Text(bytes).value);
      SplitOnceJoins(Text(bytes).value, ':');
    }
  }

  /** Why a parameter is refused: no bytes render to it, or none that are text, or text without a colon. */
  lemma MalformedIff(parameter: string)
    ensures ParseBasic(parameter) == Malformed("basic", "not valid base64") <==>
            forall b: seq<Byte> :: Encode(b) != parameter
    ensures ParseBasic(parameter) == Malformed("basic", "not valid UTF-8") <==>
            (exists b: seq<Byte> :: Encode(b) == parameter) && (forall text :: Encode(Bytes(text)) != parameter)
    ensures ParseBasic(parameter) == Malformed("basic", "missing ':' separator") <==>
            exists text :: ':' !in text && Encode(Bytes(text)) == parameter
  {
    if Decode(parameter).Some? {
      EncodeDecode(parameter);
      var b := Decode(parameter).value;
      if Text(b).Some? {
        BytesOfText(b, Text(b).value);
        SplitOnceJoins(Text(b).value, ':');
      }
    }
    forall b: seq<Byte> ensures Decode(Encode(b)) == Some(b) {
      DecodeEncode(b);
    }
    forall text ensures Text(Bytes(text)) == Some(text) {
      TextOfBytes(text);
    }
  }

  // ---------- the header ----------

  /** White space is 25 code points. */
  lemma WhitespaceIff(c: char)
    ensures IsWhitespace(c) <==>
            || 9 <= c as int <= 13 || 8192 <= c as int <= 8202
            || c as int in {32, 133, 160, 5760, 8232, 8233, 8239, 8287, 12288}
  {
  }

  lemma Base64IsNotWhitespace(c: char)
    requires IsBase64Char(c)
    ensures !IsWhitespace(c)
  {
  }

  lemma RenderedIsTrimmed(id: string, secret: string)
    ensures RenderBasic(id, secret) != "" && HasTrimmedEnds(RenderBasic(id, secret), IsWhitespace)
  {
    var text := id + [':'] + secret;
    var b := Bytes(text);
    assert b != [] by { assert EncodeChar(text[0]) != []; }
    EncodeIsNonEmpty(b);
    EncodeUsesAlphabet(b);
    var p := Encode(b);
    assert p[0] in p && p[|p| - 1] in p;
    Base64IsNotWhitespace(p[0]);
    Base64IsNotWhitespace(p[|p| - 1]);
  }

  /** The header carries the parameter under a scheme that lowers to this name, with any spacing. */
  ghost predicate Carries(header: string, name: string, parameter: string) {
    exists scheme, rest ::
      && TrimSpace(header) == scheme + [' '] + rest && ' ' !in scheme
      && Lowercase(scheme) == name && TrimSpace(rest) == parameter
  }

  lemma CarriesOne(header: string, name: string, parameter: string)
    ensures Carries(header, name, parameter) <==>
            match SplitOnce(TrimSpace(header), ' ')
            case None => false
            case Some((scheme, rest)) => Lowercase(scheme) == name && TrimSpace(rest) == parameter
  {
    var h := TrimSpace(header);
    SplitOnceJoins(h, ' ');
    if Carries(header, name, parameter) {
      var scheme, rest :| h == scheme + [' '] + rest && ' ' !in scheme && Lowercase(scheme) == name
          && TrimSpace(rest) == parameter;
      SplitOnceOfJoined(scheme, ' ', rest);
    }
  }

  /** What every header is read as: a token, a pair or why there is none, another scheme's text, or nothing
      where no space separates a scheme from a parameter. */
  lemma ReadAsIff(header: string, token: string, name: string)
    ensures FromAuthorizationHeader(header) == Bearer(token) <==> Carries(header, "bearer", token)
    ensures FromAuthorizationHeader(header) == Other(name, token) <==>
            Carries(header, name, token) && name != "bearer" && name != "basic"
    ensures Carries(header, "basic", token) ==> FromAuthorizationHeader(header) == ParseBasic(token)
    ensures FromAuthorizationHeader(header) == NoCredential <==> ' ' !in TrimSpace(header)
  {
    CarriesOne(header, "bearer", token);
    CarriesOne(header, name, token);
    CarriesOne(header, "basic", token);
    SplitOnceJoins(TrimSpace(header), ' ');
  }

  /** Spaces and tabs, the optional white space of section 5.6.3 of RFC 9110. */
  predicate IsSpacing(s: string) {
    forall c :: c in s ==> c == ' ' || c == '\t'
  }

  /** The scheme's name, each letter in either case. */
  predicate Spells(scheme: string, lower: string, upper: string)
    requires |lower| == |upper|
  {
    |scheme| == |lower| && forall i :: 0 <= i < |scheme| ==> scheme[i] == lower[i] || scheme[i] == upper[i]
  }

  lemma SpelledLowers(scheme: string)
    ensures Spells(scheme, "basic", "BASIC") ==> Lowercase(scheme) == "basic"
    ensures Spells(scheme, "bearer", "BEARER") ==> Lowercase(scheme) == "bearer"
  {
  }

  /** A scheme, spaced out with white space in front of it, behind its space and at the end. */
  lemma SpacedCarries(pre: string, scheme: string, mid: string, parameter: string, post: string)
    requires AllBlank(pre, IsWhitespace) && AllBlank(mid, IsWhitespace) && AllBlank(post, IsWhitespace)
    requires scheme != "" && ' ' !in scheme && !IsWhitespace(scheme[0])
    requires parameter != "" && HasTrimmedEnds(parameter, IsWhitespace)
    ensures Carries(pre + (scheme + [' '] + (mid + parameter)) + post, Lowercase(scheme), parameter)
  {
    var core := scheme + [' '] + (mid + parameter);
    assert core[|core| - 1] == parameter[|parameter| - 1] && core[0] == scheme[0];
    TrimDrops(pre, core, post, IsWhitespace);
    assert TrimSpace(mid + parameter) == parameter by {
      TrimDrops(mid, parameter, "", IsWhitespace);
      assert mid + parameter + "" == mid + parameter;
    }
  }

  /** Every rendering of a pair is read back: any case of the scheme, any spacing around it, and any after
      the space that separates the parameter. */
  lemma BasicRoundTrip(pre: string, scheme: string, mid: string, id: string, secret: string, post: string)
    requires IsSpacing(pre) && IsSpacing(mid) && IsSpacing(post)
    requires Spells(scheme, "basic", "BASIC") && ':' !in id
    ensures FromAuthorizationHeader(pre + (scheme + [' '] + (mid + RenderBasic(id, secret))) + post)
        == Basic(id, secret)
  {
    SpelledLowers(scheme);
    RenderedIsTrimmed(id, secret);
    SpacedCarries(pre, scheme, mid, RenderBasic(id, secret), post);
    AcceptedIff(pre + (scheme + [' '] + (mid + RenderBasic(id, secret))) + post, id, secret);
  }

  /** So is every token without white space at its ends. */
  lemma BearerRoundTrip(pre: string, scheme: string, mid: string, token: string, post: string)
    requires IsSpacing(pre) && IsSpacing(mid) && IsSpacing(post)
    requires Spells(scheme, "bearer", "BEARER") && token != "" && HasTrimmedEnds(token, IsWhitespace)
    ensures FromAuthorizationHeader(pre + (scheme + [' '] + (mid + token)) + post) == Bearer(token)
  {
    SpelledLowers(scheme);
    SpacedCarries(pre, scheme, mid, token, post);
    ReadAsIff(pre + (scheme + [' '] + (mid + token)) + post, token, "");
  }

  /** A header is read as a pair exactly if it carries the canonical rendering of that pair. */
  lemma AcceptedIff(header: string, id: string, secret: string)
    ensures FromAuthorizationHeader(header) == Basic(id, secret) <==>
            ':' !in id && Carries(header, "basic", RenderBasic(id, secret))
  {
    CarriesOne(header, "basic", RenderBasic(id, secret));
    if SplitOnce(TrimSpace(header), ' ').Some? {
      ParseBasicIff(TrimSpace(SplitOnce(TrimSpace(header), ' ').value.1), id, secret);
    }
  }

  /** One header never stands for two pairs, and no pair hides behind two parameters. */
  lemma RenderingIsInjective(id: string, secret: string, id': string, secret': string)
    requires ':' !in id && ':' !in id'
    requires RenderBasic(id, secret) == RenderBasic(id', secret')
    ensures id == id' && secret == secret'
  {
    ParseBasicIff(RenderBasic(id, secret), id, secret);
    ParseBasicIff(RenderBasic(id, secret), id', secret');
  }
}
