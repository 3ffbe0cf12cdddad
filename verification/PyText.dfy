/**
 The few operations of Python's str that the audit tool relies on: strip, startswith,
 the first occurrence of a character, and the slice that drops a pair of quotes.
 */
module PyText {
  import opened Wrappers

  /** The code points str.strip() removes. */
  predicate IsSpace(c: char) {
    || '\t' <= c <= '\r'
    || '\U{1C}' <= c <= ' '
    || c == '\U{85}' || c == '\U{A0}' || c == '\U{1680}'
    || '\U{2000}' <= c <= '\U{200A}'
    || c == '\U{2028}' || c == '\U{2029}' || c == '\U{202F}' || c == '\U{205F}' || c == '\U{3000}'
  }

  /** These are the code points with the White_Space property or the bidirectional types B, S or WS, one by one. */
  lemma SpacesListed(c: char)
    ensures IsSpace(c) <==>
              c as int in {9, 10, 11, 12, 13, 28, 29, 30, 31, 32, 133, 160, 5760, 8192, 8193, 8194, 8195, 8196, 8197,
                           8198, 8199, 8200, 8201, 8202, 8232, 8233, 8239, 8287, 12288}
  {}

  predicate AllSpace(s: string) {
    forall i :: 0 <= i < |s| ==> IsSpace(s[i])
  }

  /** Neither end is a space: the strings strip() leaves alone. */
  predicate Trimmed(s: string) {
    s != "" ==> !IsSpace(s[0]) && !IsSpace(s[|s| - 1])
  }

  function LStrip(s: string): string {
    if s != "" && IsSpace(s[0]) then LStrip(s[1..]) else s
  }

  function RStrip(s: string): string {
    if s != "" && IsSpace(s[|s| - 1]) then RStrip(s[..|s| - 1]) else s
  }

  function Strip(s: string): string {
    RStrip(LStrip(s))
  }

  lemma {:induction false} LStripSplits(s: string) returns (pre: string)
    ensures s == pre + LStrip(s) && AllSpace(pre)
    ensures LStrip(s) != "" ==> !IsSpace(LStrip(s)[0])
  {
    if s != "" && IsSpace(s[0]) {
      var rest := LStripSplits(s[1..]);
      pre := [s[0]] + rest;
      assert s == [s[0]] + s[1..];
    } else {
      pre := "";
    }
  }

  lemma {:induction false} RStripSplits(s: string) returns (post: string)
    ensures s == RStrip(s) + post && AllSpace(post)
    ensures RStrip(s) != "" ==> !IsSpace(RStrip(s)[|RStrip(s)| - 1])
  {
    if s != "" && IsSpace(s[|s| - 1]) {
      var rest := RStripSplits(s[..|s| - 1]);
      post := rest + [s[|s| - 1]];
      assert s == s[..|s| - 1] + [s[|s| - 1]];
    } else {
      post := "";
    }
  }

  /** strip() removes spaces at both ends and nothing else. */
  lemma StripSplits(s: string) returns (pre: string, post: string)
    ensures s == pre + Strip(s) + post
    ensures AllSpace(pre) && AllSpace(post) && Trimmed(Strip(s))
  {
    pre := LStripSplits(s);
    post := RStripSplits(LStrip(s));
    var t := Strip(s);
    if t != "" {
      assert LStrip(s)[0] == t[0];
    }
  }

  lemma {:induction false} LStripDrops(pre: string, s: string)
    requires AllSpace(pre)
    requires s != "" ==> !IsSpace(s[0])
    ensures LStrip(pre + s) == s
  {
    if pre == "" {
      assert pre + s == s;
    } else {
      assert (pre + s)[1..] == pre[1..] + s;
      LStripDrops(pre[1..], s);
    }
  }

  lemma {:induction false} RStripDrops(s: string, post: string)
    requires AllSpace(post)
    requires s != "" ==> !IsSpace(s[|s| - 1])
    ensures RStrip(s + post) == s
  {
    if post == "" {
      assert s + post == s;
    } else {
      assert (s + post)[..|s + post| - 1] == s + post[..|post| - 1];
      RStripDrops(s, post[..|post| - 1]);
    }
  }

  /** strip() is the only way to take spaces off both ends until none is left. */
  lemma StripUnique(pre: string, core: string, post: string)
    requires AllSpace(pre) && AllSpace(post) && Trimmed(core)
    ensures Strip(pre + core + post) == core
  {
    if core == "" {
      assert pre + core + post == (pre + post) + "";
      LStripDrops(pre + post, "");
    } else {
      assert pre + core + post == pre + (core + post);
      LStripDrops(pre, core + post);
      RStripDrops(core, post);
    }
  }

  lemma StripSubset(s: string)
    ensures forall c :: c in Strip(s) ==> c in s
  {
    var pre, post := StripSplits(s);
    forall c | c in Strip(s) ensures c in s {
      var i :| 0 <= i < |Strip(s)| && Strip(s)[i] == c;
      assert s[|pre| + i] == c;
    }
  }

  lemma StripLStrip(s: string)
    ensures LStrip(LStrip(s)) == LStrip(s) && Strip(LStrip(s)) == Strip(s)
  {
    var _ := LStripSplits(s);
  }

  /** White space around a text does not change what strip() leaves of it. */
  lemma StripPads(pre: string, s: string, post: string)
    requires AllSpace(pre) && AllSpace(post)
    ensures Strip(pre + s + post) == Strip(s)
  {
    var p, q := StripSplits(s);
    assert pre + s + post == (pre + p) + Strip(s) + (q + post);
    StripUnique(pre + p, Strip(s), q + post);
  }

  lemma StripTrimmed(s: string)
    requires Trimmed(s)
    ensures Strip(s) == s
  {}

  lemma StripEmpty(s: string)
    ensures Strip(s) == "" <==> AllSpace(s)
  {
    var pre, post := StripSplits(s);
    assert Strip(s) != "" ==> s[|pre|] == Strip(s)[0];
  }

  predicate StartsWith(s: string, prefix: string) {
    prefix <= s
  }

  predicate EndsWith(s: string, suffix: string) {
    |suffix| <= |s| && s[|s| - |suffix|..] == suffix
  }

  /** The index of the first occurrence of c, or |s| when there is none. */
  function IndexOf(s: string, c: char): (i: nat)
    ensures i <= |s|
  {
    if s == "" || s[0] == c then 0 else 1 + IndexOf(s[1..], c)
  }

  lemma {:induction false} IndexOfFirst(a: string, c: char, b: string)
    requires c !in a
    ensures IndexOf(a + [c] + b, c) == |a|
  {
    if a != "" {
      assert (a + [c] + b)[1..] == a[1..] + [c] + b;
      IndexOfFirst(a[1..], c, b);
    }
  }

  lemma {:induction false} IndexOfAbsent(s: string, c: char)
    ensures IndexOf(s, c) == |s| <==> c !in s
  {
    if s != "" {
      assert s == [s[0]] + s[1..];
      IndexOfAbsent(s[1..], c);
    }
  }

  /** s[1:-1]: Python gives the empty string for a string of one character. */
  function DropEnds(s: string): string {
    if |s| < 2 then "" else s[1..|s| - 1]
  }

  /** Takes one pair of matching quotes off; a lone quote character counts as a pair. */
  function Unquote(s: string): string {
    if (StartsWith(s, "\"") && EndsWith(s, "\"")) || (StartsWith(s, "'") && EndsWith(s, "'"))
    then DropEnds(s)
    else s
  }

  lemma UnquoteQuoted(v: string)
    ensures Unquote("\"" + v + "\"") == v && Unquote("'" + v + "'") == v
  {}

  /** Only a text with the same quote at both ends is changed; of a lone quote nothing is left. */
  lemma UnquoteOther(v: string)
    ensures (v != "" && v[0] == v[|v| - 1] && v[0] in {'"', '\''}) || Unquote(v) == v
    ensures v == "\"" || v == "'" ==> Unquote(v) == ""
  {}
}
