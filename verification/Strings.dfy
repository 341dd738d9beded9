/** The string operations the sources use. */
module Strings {
  import opened Wrappers

  predicate StartsWith(s: string, prefix: string) {
    prefix <= s
  }

  function StripPrefix(s: string, prefix: string): Option<string> {
    if prefix <= s then Some(s[|prefix|..]) else None
  }

  /** `split(c)`: never empty; one segment more than there are separators. */
  function Split(s: string, c: char): (segments: seq<string>)
    ensures segments != []
  {
    if s == [] then [[]]
    else
      var rest := Split(s[1..], c);
      if s[0] == c then [[]] + rest else [[s[0]] + rest[0]] + rest[1..]
  }

  /** `split_once(c)`: at the first separator. */
  function SplitOnce(s: string, c: char): Option<(string, string)> {
    if s == [] then None
    else if s[0] == c then Some(([], s[1..]))
    else match SplitOnce(s[1..], c)
         case None => None
         case Some((a, b)) => Some(([s[0]] + a, b))
  }

  lemma {:induction false} SplitOnceOfJoined(a: string, c: char, b: string)
    requires c !in a
    ensures SplitOnce(a + [c] + b, c) == Some((a, b))
  {
    var s := a + [c] + b;
    if a == [] {
      assert s[1..] == b;
    } else {
      assert s[1..] == a[1..] + [c] + b;
      SplitOnceOfJoined(a[1..], c, b);
      assert a == [a[0]] + a[1..];
    }
  }

  lemma {:induction false} SplitOnceJoins(s: string, c: char)
    ensures match SplitOnce(s, c)
            case None => c !in s
            case Some((a, b)) => c !in a && s == a + [c] + b
  {
    if s != [] && s[0] != c {
      SplitOnceJoins(s[1..], c);
      assert s == [s[0]] + s[1..];
    }
  }

  // ---------- trimming ----------

  function TrimStart(s: string, blank: char -> bool): string {
    if s != "" && blank(s[0]) then TrimStart(s[1..], blank) else s
  }

  function TrimEnd(s: string, blank: char -> bool): string {
    if s != "" && blank(s[|s| - 1]) then TrimEnd(s[..|s| - 1], blank) else s
  }

  function Trim(s: string, blank: char -> bool): string {
    TrimEnd(TrimStart(s, blank), blank)
  }

  predicate AllBlank(s: string, blank: char -> bool) {
    forall c :: c in s ==> blank(c)
  }

  /** Neither end is blank. */
  predicate HasTrimmedEnds(s: string, blank: char -> bool) {
    s == "" || (!blank(s[0]) && !blank(s[|s| - 1]))
  }

  lemma {:induction false} TrimStartDrops(pre: string, s: string, blank: char -> bool)
    requires AllBlank(pre, blank) && (s == "" || !blank(s[0]))
    ensures TrimStart(pre + s, blank) == s
  {
    if pre == "" {
      assert pre + s == s;
    } else {
      assert (pre + s)[1..] == pre[1..] + s;
      TrimStartDrops(pre[1..], s, blank);
    }
  }

  lemma {:induction false} TrimEndDrops(s: string, post: string, blank: char -> bool)
    requires AllBlank(post, blank) && (s == "" || !blank(s[|s| - 1]))
    ensures TrimEnd(s + post, blank) == s
  {
    if post == "" {
      assert s + post == s;
    } else {
      var n := |post| - 1;
      assert (s + post)[..|s + post| - 1] == s + post[..n];
      assert (s + post)[|s + post| - 1] == post[n];
      TrimEndDrops(s, post[..n], blank);
    }
  }

  lemma TrimDrops(pre: string, s: string, post: string, blank: char -> bool)
    requires AllBlank(pre, blank) && AllBlank(post, blank) && s != "" && HasTrimmedEnds(s, blank)
    ensures Trim(pre + s + post, blank) == s
  {
    assert pre + s + post == pre + (s + post);
    TrimStartDrops(pre, s + post, blank);
    TrimEndDrops(s, post, blank);
  }

  lemma TrimKeeps(s: string, blank: char -> bool)
    requires HasTrimmedEnds(s, blank)
    ensures Trim(s, blank) == s
  {
  }

  // ---------- case ----------

  function ToLower(c: char): char {
    if 'A' <= c <= 'Z' then (c as int + 32) as char else c
  }

  /** The 26 capital letters of ASCII change, and nothing else. */
  lemma LettersAreLowered()
    ensures forall i :: 0 <= i < 26 ==>
              ToLower("ABCDEFGHIJKLMNOPQRSTUVWXYZ"[i]) == "abcdefghijklmnopqrstuvwxyz"[i]
    ensures forall c :: c < 'A' || 'Z' < c ==> ToLower(c) == c
  {
  }

  function Lowercase(s: string): (t: string)
    ensures |t| == |s| && forall i :: 0 <= i < |s| ==> t[i] == ToLower(s[i])
  {
    seq(|s|, i requires 0 <= i < |s| => ToLower(s[i]))
  }
}
