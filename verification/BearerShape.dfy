/** Which bearer tokens the JWT authenticator claims, and which prefixes keep API keys apart from them. */
module BearerShapes {
  import opened Strings

  /** Three non-empty dot-separated segments, as section 3.1 of RFC 7515 requires of a compact JWS. */
  predicate IsCompactJws(token: string) {
    var segments := Split(token, '.');
    |segments| == 3 && segments[0] != "" && segments[1] != "" && segments[2] != ""
  }

  function Dots(s: string): nat {
    if s == [] then 0 else (if s[0] == '.' then 1 else 0) + Dots(s[1..])
  }

  predicate NoAdjacentDots(s: string) {
    forall i :: 0 <= i < |s| - 1 ==> !(s[i] == '.' && s[i + 1] == '.')
  }

  predicate NoLeadingDot(s: string) {
    s == [] || s[0] != '.'
  }

  lemma {:induction false} OneSegmentMoreThanDots(s: string)
    ensures |Split(s, '.')| == Dots(s) + 1
  {
    if s != [] {
      OneSegmentMoreThanDots(s[1..]);
    }
  }

  lemma {:induction false} FirstSegmentEmptyIff(s: string)
    ensures Split(s, '.')[0] == "" <==> s == [] || s[0] == '.'
  {
  }

  ghost predicate LaterSegmentsNonEmpty(s: string) {
    forall i :: 1 <= i < |Split(s, '.')| ==> Split(s, '.')[i] != ""
  }

  /** The segments after the first are non-empty exactly if no dot ends the string or touches another. */
  lemma {:induction false} LaterSegmentsIff(s: string)
    ensures LaterSegmentsNonEmpty(s) <==> NoAdjacentDots(s) && (s == [] || s[|s| - 1] != '.')
  {
    if s != [] {
      var rest := s[1..];
      var segments, others := Split(s, '.'), Split(rest, '.');
      LaterSegmentsIff(rest);
      FirstSegmentEmptyIff(rest);
      assert NoAdjacentDots(s) <==> NoAdjacentDots(rest) && (s[0] == '.' ==> NoLeadingDot(rest)) by {
        AdjacentDotsOfTail(s);
      }
      if s[0] == '.' {
        assert segments == [[]] + others;
        assert LaterSegmentsNonEmpty(s) <==> others[0] != "" && LaterSegmentsNonEmpty(rest) by {
          assert forall i :: 0 <= i < |others| ==> others[i] == segments[i + 1];
        }
      } else {
        assert forall i :: 1 <= i < |segments| ==> segments[i] == others[i];
        assert |segments| == |others|;
      }
    }
  }

  lemma AdjacentDotsOfTail(s: string)
    requires s != []
    ensures NoAdjacentDots(s) <==> NoAdjacentDots(s[1..]) && (s[0] == '.' ==> NoLeadingDot(s[1..]))
  {
  }

  /** The shape in characters: two dots, none leading, trailing or adjacent. */
  lemma CompactJwsIff(s: string)
    ensures IsCompactJws(s) <==>
            Dots(s) == 2 && NoLeadingDot(s) && NoAdjacentDots(s) && s != [] && s[|s| - 1] != '.'
  {
    OneSegmentMoreThanDots(s);
    FirstSegmentEmptyIff(s);
    LaterSegmentsIff(s);
    var segments := Split(s, '.');
    if |segments| == 3 {
      assert LaterSegmentsNonEmpty(s) <==> segments[1] != "" && segments[2] != "";
    }
  }

  lemma {:induction false} DotsAdd(a: string, b: string)
    ensures Dots(a + b) == Dots(a) + Dots(b)
  {
    if a == [] {
      assert a + b == b;
    } else {
      DotsAdd(a[1..], b);
      assert (a + b)[1..] == a[1..] + b;
    }
  }

  /** A key that completes a prefix with that many dots. */
  function Completion(dots: nat): string {
    if dots == 0 then "a.b.c" else if dots == 1 then "a.b" else "a"
  }

  lemma CompletionIsClean(dots: nat)
    requires dots <= 2
    ensures var k := Completion(dots);
            Dots(k) == 2 - dots && k != [] && k[0] == 'a' && k[|k| - 1] != '.' && NoAdjacentDots(k)
  {
    assert Dots("a") == 0 && Dots(".a") == 1 by { assert ".a"[1..] == "a"; }
    assert Dots("b") == 0 && "a.b"[1..] == ".b" && ".b"[1..] == "b" && Dots("a.b") == 1;
    assert "b.c"[1..] == ".c" && ".c"[1..] == "c" && Dots("b.c") == 1;
    assert "a.b.c"[1..] == ".b.c" && ".b.c"[1..] == "b.c" && Dots("a.b.c") == 2;
  }

  /** Some API key with this prefix looks like a compact JWS exactly if the prefix has at most two dots,
      none of them leading and no two adjacent. With any other prefix the two authenticators of the
      `Bearer` scheme claim disjoint sets of tokens. */
  lemma PrefixOverlapsIff(prefix: string)
    ensures (exists key :: IsCompactJws(prefix + key)) <==>
            Dots(prefix) <= 2 && NoLeadingDot(prefix) && NoAdjacentDots(prefix)
  {
    if key :| IsCompactJws(prefix + key) {
      var s := prefix + key;
      CompactJwsIff(s);
      DotsAdd(prefix, key);
      assert forall i :: 0 <= i < |prefix| ==> prefix[i] == s[i];
    }
    if Dots(prefix) <= 2 && NoLeadingDot(prefix) && NoAdjacentDots(prefix) {
      var key := Completion(Dots(prefix));
      var s := prefix + key;
      CompletionIsClean(Dots(prefix));
      DotsAdd(prefix, key);
      assert NoAdjacentDots(s) by {
        forall i | 0 <= i < |s| - 1 ensures !(s[i] == '.' && s[i + 1] == '.') {
          if i >= |prefix| {
            assert s[i] == key[i - |prefix|] && s[i + 1] == key[i - |prefix| + 1];
          }
        }
      }
      CompactJwsIff(s);
      assert IsCompactJws(prefix + key);
    }
  }
}
