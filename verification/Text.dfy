/** Strings as the Go sources see them: code points, `\s` of Go's regexp package, and
    `strings.TrimSpace`. */
module Text {

  /** `\s` in Go regular expressions: tab, line feed, form feed, carriage return, space. */
  predicate IsRegexSpace(c: char) {
    c == '\t' || c == '\n' || c == '\U{0C}' || c == '\r' || c == ' '
  }

  /** `unicode.IsSpace`, which `strings.TrimSpace` uses. */
  predicate IsSpace(c: char) {
    || IsRegexSpace(c)
    || c == '\U{0B}' || c == '\U{85}' || c == '\U{A0}'
    || c == '\U{1680}' || '\U{2000}' <= c <= '\U{200A}'
    || c == '\U{2028}' || c == '\U{2029}' || c == '\U{202F}' || c == '\U{205F}' || c == '\U{3000}'
  }

  /** The code points, as the regexp syntax and Unicode's White_Space property list them. */
  lemma SpaceCodePoints(c: char)
    ensures IsRegexSpace(c) <==> c as int in {9, 10, 12, 13, 32}
    ensures IsSpace(c) <==>
      9 <= c as int <= 13 || 0x2000 <= c as int <= 0x200A
      || c as int in {0x20, 0x85, 0xA0, 0x1680, 0x2028, 0x2029, 0x202F, 0x205F, 0x3000}
  {
  }

  predicate AllSpace(s: string) {
    forall i :: 0 <= i < |s| ==> IsSpace(s[i])
  }

  /** No blank at either end. */
  predicate Trimmed(s: string) {
    s == "" || (!IsSpace(s[0]) && !IsSpace(s[|s| - 1]))
  }

  function TrimLeft(s: string): string {
    if s != "" && IsSpace(s[0]) then TrimLeft(s[1..]) else s
  }

  lemma TailSlices(s: string, k: nat)
    requires k < |s|
    ensures s[1..][k..] == s[k + 1..] && s[..k + 1] == [s[0]] + s[1..][..k]
  {
  }

  lemma AllSpaceCons(c: char, s: string)
    requires IsSpace(c) && AllSpace(s)
    ensures AllSpace([c] + s)
  {
    hide IsSpace;
  }

  lemma NoCharacterIsSpace()
    ensures AllSpace("")
  {
  }

  lemma {:induction false} TrimLeftShape(s: string)
    ensures var r := TrimLeft(s);
      && (r == "" || !IsSpace(r[0]))
      && |r| <= |s| && r == s[|s| - |r|..] && AllSpace(s[..|s| - |r|])
  {
    hide IsSpace, AllSpace;
    if s != "" && IsSpace(s[0]) {
      TrimLeftShape(s[1..]);
      var k := |s| - 1 - |TrimLeft(s[1..])|;
      TailSlices(s, k);
      AllSpaceCons(s[0], s[1..][..k]);
    } else {
      assert s[..0] == "" && AllSpace("") by { NoCharacterIsSpace(); }
    }
  }

  function TrimRight(s: string): string {
    if s != "" && IsSpace(s[|s| - 1]) then TrimRight(s[..|s| - 1]) else s
  }

  lemma {:induction false} TrimRightShape(s: string)
    ensures var r := TrimRight(s);
      && (r == "" || !IsSpace(r[|r| - 1]))
      && r <= s && AllSpace(s[|r|..])
  {
    hide IsSpace;
    if s != "" && IsSpace(s[|s| - 1]) {
      var r := TrimRight(s[..|s| - 1]);
      TrimRightShape(s[..|s| - 1]);
      assert s[|r|..] == s[..|s| - 1][|r|..] + [s[|s| - 1]];
    }
  }

  /** `strings.TrimSpace`. */
  function TrimSpace(s: string): string {
    TrimRight(TrimLeft(s))
  }

  lemma TrimSpaceTrims(s: string)
    ensures Trimmed(TrimSpace(s))
  {
    hide IsSpace, TrimLeft, TrimRight;
    TrimLeftShape(s);
    TrimRightShape(TrimLeft(s));
  }

  /** Blanks around a trimmed text are exactly what `TrimSpace` removes. */
  lemma {:induction false} TrimSpaceBetween(a: string, t: string, b: string)
    requires AllSpace(a) && AllSpace(b) && Trimmed(t)
    ensures TrimSpace(a + t + b) == t
  {
    if t == "" {
      assert a + t + b == a + b;
      TrimLeftAllSpace(a + b);
    } else {
      assert a + t + b == a + (t + b);
      TrimLeftAfter(a, t + b);
      TrimRightBefore(t, b);
    }
  }

  lemma {:induction false} TrimLeftAllSpace(s: string)
    requires AllSpace(s)
    ensures TrimLeft(s) == ""
  {
    if s == "" {
    } else {
      TrimLeftAllSpace(s[1..]);
    }
  }

  lemma {:induction false} TrimLeftAfter(a: string, t: string)
    requires AllSpace(a) && t != "" && !IsSpace(t[0])
    ensures TrimLeft(a + t) == t
  {
    if a == "" {
      assert a + t == t;
    } else {
      assert (a + t)[1..] == a[1..] + t;
      TrimLeftAfter(a[1..], t);
    }
  }

  lemma {:induction false} TrimRightBefore(t: string, b: string)
    requires AllSpace(b) && t != "" && !IsSpace(t[|t| - 1])
    ensures TrimRight(t + b) == t
  {
    if b == "" {
      assert t + b == t;
    } else {
      assert (t + b)[..|t + b| - 1] == t + b[..|b| - 1];
      TrimRightBefore(t, b[..|b| - 1]);
    }
  }

  /** A trimmed text is left alone. */
  lemma TrimSpaceFixed(t: string)
    requires Trimmed(t)
    ensures TrimSpace(t) == t
  {
    assert "" + t + "" == t;
    TrimSpaceBetween("", t, "");
  }

  predicate NewlineFree(s: string) {
    '\n' !in s
  }

  /** The text up to, and without, its first line feed: what a greedy `.*` takes. */
  function FirstLine(s: string): (r: string)
    ensures r <= s && NewlineFree(r)
    ensures |r| < |s| ==> s[|r|] == '\n'
  {
    if s == "" || s[0] == '\n' then "" else [s[0]] + FirstLine(s[1..])
  }

  lemma {:induction false} FirstLineStops(a: string, b: string)
    requires NewlineFree(a) && (b == "" || b[0] == '\n')
    ensures FirstLine(a + b) == a
  {
    if a == "" {
      assert a + b == b;
    } else {
      assert (a + b)[1..] == a[1..] + b;
      FirstLineStops(a[1..], b);
    }
  }

  /** Adding further lines does not change the first one. */
  lemma FirstLineAppend(s: string, more: string)
    ensures FirstLine(s + "\n" + more) == FirstLine(s)
  {
    var a := FirstLine(s);
    assert s + "\n" + more == a + (s[|a|..] + "\n" + more);
    FirstLineStops(a, s[|a|..] + "\n" + more);
  }

  /** What a greedy `\s*` leaves over. */
  function SkipRegexSpace(s: string): string {
    if s != "" && IsRegexSpace(s[0]) then SkipRegexSpace(s[1..]) else s
  }

  lemma {:induction false} SkipRegexSpaceShape(s: string)
    ensures var r := SkipRegexSpace(s);
      && (r == "" || !IsRegexSpace(r[0]))
      && |r| <= |s| && r == s[|s| - |r|..]
      && forall i :: 0 <= i < |s| - |r| ==> IsRegexSpace(s[i])
  {
    hide IsRegexSpace;
    if s != "" && IsRegexSpace(s[0]) {
      SkipRegexSpaceShape(s[1..]);
      TailSlices(s, |s| - 1 - |SkipRegexSpace(s[1..])|);
      assert forall i :: 0 < i < |s| ==> s[i] == s[1..][i - 1];
    }
  }

  predicate HasNonSpace(s: string) {
    exists i :: 0 <= i < |s| && !IsRegexSpace(s[i])
  }

  /** Once `\s*` has met a character it stops at, later text cannot matter. */
  lemma {:induction false} SkipRegexSpaceAppend(s: string, more: string)
    requires HasNonSpace(s)
    ensures SkipRegexSpace(s + more) == SkipRegexSpace(s) + more
    ensures SkipRegexSpace(s) != ""
  {
    if IsRegexSpace(s[0]) {
      var i :| 0 <= i < |s| && !IsRegexSpace(s[i]);
      assert s[1..][i - 1] == s[i];
      assert (s + more)[1..] == s[1..] + more;
      SkipRegexSpaceAppend(s[1..], more);
    }
  }
}
