/**
 * Unwrapping of the Hydrocron response text before it is handed to the CSV
 * reader (run_quickloo.py, lines 23-27): trim surrounding whitespace, drop one
 * layer of enclosing double quotes, and turn every two-character escape
 * backslash-`n` into a real newline.
 */
module Payload {

  /** The characters Python's `str.isspace` accepts, which are what `str.strip()` removes. */
  const SpaceChars: set<char> := {
    ' ', '\t', '\n', '\r', '\U{0B}', '\U{0C}', '\U{1C}', '\U{1D}', '\U{1E}', '\U{1F}',
    '\U{85}', '\U{A0}', '\U{1680}', '\U{2000}', '\U{2001}', '\U{2002}', '\U{2003}',
    '\U{2004}', '\U{2005}', '\U{2006}', '\U{2007}', '\U{2008}', '\U{2009}', '\U{200A}',
    '\U{2028}', '\U{2029}', '\U{202F}', '\U{205F}', '\U{3000}'
  }

  predicate IsSpace(c: char) {
    c in SpaceChars
  }

  predicate AllSpace(s: string) {
    forall i :: 0 <= i < |s| ==> IsSpace(s[i])
  }

  /** The number of whitespace characters at the front of `s`. */
  function LeadingSpaces(s: string): (n: nat)
    ensures n <= |s| && AllSpace(s[..n])
    ensures n == |s| || !IsSpace(s[n])
  {
    if s != [] && IsSpace(s[0]) then
      var m := LeadingSpaces(s[1..]);
      assert s[..m + 1] == [s[0]] + s[1..][..m];
      m + 1
    else 0
  }

  /** The number of whitespace characters at the back of `s`. */
  function TrailingSpaces(s: string): (n: nat)
    ensures n <= |s| && AllSpace(s[|s| - n..])
    ensures n == |s| || !IsSpace(s[|s| - n - 1])
  {
    if s != [] && IsSpace(s[|s| - 1]) then
      var m := TrailingSpaces(s[..|s| - 1]);
      assert s[|s| - (m + 1)..] == s[..|s| - 1][|s| - 1 - m..] + [s[|s| - 1]];
      m + 1
    else 0
  }

  /** Python's `str.strip()` with no argument: `s` without the whitespace at either
      end, i.e. the middle slice `s[i..j]` whose outside is all whitespace and whose
      first and last characters are not. */
  function Strip(s: string): (r: string)
    ensures var i := LeadingSpaces(s);
      var j := |s| - TrailingSpaces(s[i..]);
      i <= j <= |s| && r == s[i..j] && AllSpace(s[..i]) && AllSpace(s[j..])
    ensures r == [] || (!IsSpace(r[0]) && !IsSpace(r[|r| - 1]))
  {
    var i := LeadingSpaces(s);
    var t := s[i..];
    var n := TrailingSpaces(t);
    var j := |s| - n;
    assert AllSpace(s[j..]) by {
      assert t[|t| - n..] == s[j..];
    }
    assert i < j ==> !IsSpace(s[i]) && !IsSpace(s[j - 1]) by {
      if i < j {
        assert t[0] == s[i] && t[|t| - n - 1] == s[j - 1];
      }
    }
    s[i..j]
  }

  /** The text starts and ends with a double quote; a lone quote does both. */
  predicate IsQuoted(t: string) {
    |t| > 0 && t[0] == '"' && t[|t| - 1] == '"'
  }

  /** Line 26: the text without its first and last character when it is quoted,
      the text itself otherwise. */
  function Unquote(t: string): (r: string)
    ensures IsQuoted(t) && |t| == 1 ==> r == []
    ensures IsQuoted(t) && |t| >= 2 ==> t == ['"'] + r + ['"']
    ensures !IsQuoted(t) ==> r == t
  {
    if IsQuoted(t) then (if |t| == 1 then [] else t[1..|t| - 1]) else t
  }

  /** True when `s` holds a backslash immediately followed by `n` at position `i`. */
  predicate EscapeAt(s: string, i: int)
    requires 0 <= i
  {
    i + 1 < |s| && s[i] == '\\' && s[i + 1] == 'n'
  }

  predicate NoEscapedNewline(s: string) {
    forall i :: 0 <= i < |s| ==> !EscapeAt(s, i)
  }

  /** Line 27: every backslash-`n` pair becomes a newline, pairs matched left to
      right without overlap, as Python's `str.replace` matches them. */
  function Unescape(s: string): (r: string)
    ensures NoEscapedNewline(r)
    ensures |r| <= |s|
    ensures s != [] ==> r != [] && (r[0] == s[0] || r[0] == '\n')
  {
    if s == [] then []
    else if EscapeAt(s, 0) then
      var u := Unescape(s[2..]);
      NoEscapedNewlineCons('\n', u);
      ['\n'] + u
    else
      var u := Unescape(s[1..]);
      NoEscapedNewlineCons(s[0], u);
      [s[0]] + u
  }

  /** Putting a character in front of text without an escaped newline creates one
      only when that character is a backslash and the text starts with `n`. */
  lemma NoEscapedNewlineCons(c: char, u: string)
    requires NoEscapedNewline(u)
    requires c != '\\' || u == [] || u[0] != 'n'
    ensures NoEscapedNewline([c] + u)
  {
    var s := [c] + u;
    forall i | 0 <= i < |s|
      ensures !EscapeAt(s, i)
    {
      if i > 0 {
        assert !EscapeAt(u, i - 1);
      }
    }
  }

  /** The unwrapping done at lines 23-27, in order. */
  function Unwrap(body: string): string {
    Unescape(Unquote(Strip(body)))
  }

  /** Text without an escaped newline is left as it is by the unescaping step. */
  lemma {:induction false} UnescapeLeavesPlainText(s: string)
    requires NoEscapedNewline(s)
    ensures Unescape(s) == s
  {
    if s != [] {
      assert !EscapeAt(s, 0);
      assert forall i :: 0 <= i < |s[1..]| ==> (EscapeAt(s[1..], i) <==> EscapeAt(s, i + 1));
      UnescapeLeavesPlainText(s[1..]);
    }
  }

  /** The encoding the upstream service applies: every newline written as backslash-`n`. */
  function Escape(c: string): (r: string)
    ensures '\n' !in r
    ensures |r| >= |c|
  {
    if c == [] then []
    else if c[0] == '\n' then ['\\', 'n'] + Escape(c[1..])
    else [c[0]] + Escape(c[1..])
  }

  /** The wrapped form of a CSV text: escaped, then enclosed in double quotes. */
  function Wrap(c: string): (w: string)
    ensures IsQuoted(w) && |w| >= 2
  {
    ['"'] + Escape(c) + ['"']
  }

  /** Unescaping undoes escaping for text that holds no backslash of its own. */
  lemma {:induction false} UnescapeEscape(c: string)
    requires '\\' !in c
    ensures Unescape(Escape(c)) == c
  {
    if c != [] {
      var e := Escape(c[1..]);
      assert '\\' !in c[1..];
      UnescapeEscape(c[1..]);
      if c[0] == '\n' {
        assert Escape(c) == ['\\', 'n'] + e;
        assert (['\\', 'n'] + e)[2..] == e;
      } else {
        assert Escape(c) == [c[0]] + e;
        assert ([c[0]] + e)[1..] == e;
      }
    }
  }

  /** Text without surrounding whitespace is left as it is by `Strip`. */
  lemma StripTrimmed(s: string)
    requires s != [] && !IsSpace(s[0]) && !IsSpace(s[|s| - 1])
    ensures Strip(s) == s
  {
    assert LeadingSpaces(s) == 0;
    assert s[0..] == s;
    assert TrailingSpaces(s) == 0;
  }

  /** A whitespace run of length `m` followed by another character is exactly what
      `LeadingSpaces` counts. */
  lemma {:induction false} LeadingSpacesIs(s: string, m: nat)
    requires m < |s| && AllSpace(s[..m]) && !IsSpace(s[m])
    ensures LeadingSpaces(s) == m
  {
    if m > 0 {
      assert s[..m][0] == s[0];
      assert s[1..][..m - 1] == s[..m][1..];
      LeadingSpacesIs(s[1..], m - 1);
    }
  }

  /** The same for a whitespace run at the back. */
  lemma {:induction false} TrailingSpacesIs(s: string, m: nat)
    requires m < |s| && AllSpace(s[|s| - m..]) && !IsSpace(s[|s| - m - 1])
    ensures TrailingSpaces(s) == m
  {
    if m > 0 {
      assert s[|s| - m..][m - 1] == s[|s| - 1];
      var u := s[..|s| - 1];
      assert u[|u| - (m - 1)..] == s[|s| - m..][..m - 1];
      TrailingSpacesIs(u, m - 1);
    }
  }

  /** Whitespace around text whose ends are not whitespace is exactly what `Strip`
      removes. */
  lemma StripPadded(p: string, w: string, q: string)
    requires AllSpace(p) && AllSpace(q)
    requires w != [] && !IsSpace(w[0]) && !IsSpace(w[|w| - 1])
    ensures Strip(p + w + q) == w
  {
    var s := p + w + q;
    assert s[..|p|] == p && s[|p|] == w[0];
    LeadingSpacesIs(s, |p|);
    var t := s[|p|..];
    assert t == w + q;
    assert t[|t| - |q|..] == q && t[|t| - |q| - 1] == w[|w| - 1];
    TrailingSpacesIs(t, |q|);
    assert s[|p|..|s| - |q|] == w;
  }

  /** Round trip: wrapping a backslash-free CSV text and unwrapping it gives the text
      back, whatever whitespace surrounds the wrapped text. */
  lemma UnwrapWrap(c: string, p: string, q: string)
    requires '\\' !in c
    requires AllSpace(p) && AllSpace(q)
    ensures Unwrap(p + Wrap(c) + q) == c
  {
    var w := Wrap(c);
    StripPadded(p, w, q);
    assert Unquote(w) == Escape(c);
    UnescapeEscape(c);
  }

  /** Unwrapping text that is already plain CSV (no surrounding whitespace, no
      enclosing quotes, no backslash-`n` pair) changes nothing. */
  lemma UnwrapPlain(body: string)
    requires body != [] && !IsSpace(body[0]) && !IsSpace(body[|body| - 1])
    requires !IsQuoted(body) && NoEscapedNewline(body)
    ensures Unwrap(body) == body
  {
    StripTrimmed(body);
    UnescapeLeavesPlainText(body);
  }
}
