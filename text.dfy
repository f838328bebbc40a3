/**
 * Python's string operations that the engine relies on: `str.strip()` for
 * titles and the chained `str.replace` calls of `telegram_escape`
 * (main.py:316-317).
 */
module Text {
  import Seqs

  /** Python's `str.isspace` for a single character. */
  predicate IsSpace(c: char) {
    c in Whitespace
  }

  /** The characters for which `str.isspace` holds. */
  const Whitespace: set<char> := {
    '\t', '\n', '\U{000B}', '\U{000C}', '\r', '\U{001C}', '\U{001D}', '\U{001E}', '\U{001F}', ' ',
    '\U{0085}', '\U{00A0}', '\U{1680}', '\U{2000}', '\U{2001}', '\U{2002}', '\U{2003}', '\U{2004}',
    '\U{2005}', '\U{2006}', '\U{2007}', '\U{2008}', '\U{2009}', '\U{200A}', '\U{2028}', '\U{2029}',
    '\U{202F}', '\U{205F}', '\U{3000}'}

  /** `s.lstrip()`; what it keeps and drops is `TrimStartSpec`. */
  function TrimStart(s: string): string {
    if s != [] && IsSpace(s[0]) then TrimStart(s[1..]) else s
  }

  /** `s.rstrip()`; what it keeps and drops is `TrimEndSpec`. */
  function TrimEnd(s: string): string {
    if s != [] && IsSpace(s[|s| - 1]) then TrimEnd(s[..|s| - 1]) else s
  }

  /** Neither end of `s` is whitespace. */
  predicate Trimmed(s: string) {
    s == [] || (!IsSpace(s[0]) && !IsSpace(s[|s| - 1]))
  }

  /** `s.strip()`: never longer than `s`, and with whitespace at neither end. */
  function Strip(s: string): (r: string)
    ensures |r| <= |s| && Trimmed(r)
  {
    TrimStartSpec(s);
    TrimEndSpec(TrimStart(s));
    assert TrimEnd(TrimStart(s)) != [] ==> TrimEnd(TrimStart(s))[0] == TrimStart(s)[0];
    TrimEnd(TrimStart(s))
  }

  /** `lstrip` drops a prefix made only of whitespace, and what remains does not start with whitespace. */
  lemma {:induction false} TrimStartSpec(s: string)
    ensures |TrimStart(s)| <= |s| && TrimStart(s) == s[|s| - |TrimStart(s)|..]
    ensures TrimStart(s) == [] || !IsSpace(TrimStart(s)[0])
    ensures forall k :: 0 <= k < |s| - |TrimStart(s)| ==> IsSpace(s[k])
  {
    if s != [] && IsSpace(s[0]) {
      TrimStartSpec(s[1..]);
      assert forall k :: 1 <= k < |s| ==> s[k] == s[1..][k - 1];
    }
  }

  /** `rstrip` drops a suffix made only of whitespace, and what remains does not end with whitespace. */
  lemma {:induction false} TrimEndSpec(s: string)
    ensures |TrimEnd(s)| <= |s| && TrimEnd(s) == s[..|TrimEnd(s)|]
    ensures TrimEnd(s) == [] || !IsSpace(TrimEnd(s)[|TrimEnd(s)| - 1])
    ensures forall k :: |TrimEnd(s)| <= k < |s| ==> IsSpace(s[k])
  {
    if s != [] && IsSpace(s[|s| - 1]) {
      TrimEndSpec(s[..|s| - 1]);
    }
  }

  /**
   * `strip` keeps a contiguous middle of `s`: what it drops before and after
   * that middle is whitespace only.
   */
  lemma StripSpec(s: string)
    ensures var i := |s| - |TrimStart(s)|;
      && 0 <= i && i + |Strip(s)| <= |s| && Strip(s) == s[i..i + |Strip(s)|]
      && (forall k :: 0 <= k < i ==> IsSpace(s[k]))
      && (forall k :: i + |Strip(s)| <= k < |s| ==> IsSpace(s[k]))
  {
    TrimStartSpec(s);
    var t := TrimStart(s);
    TrimEndSpec(t);
    var i, n := |s| - |t|, |TrimEnd(t)|;
    assert t == s[i..];
    assert TrimEnd(t) == s[i..][..n];
    assert s[i..][..n] == s[i..i + n];
    forall k | i + n <= k < |s|
      ensures IsSpace(s[k])
    {
      assert s[k] == t[k - i];
    }
  }

  /** A string with no whitespace at either end is its own strip. */
  lemma StripFixesTrimmed(s: string)
    requires Trimmed(s)
    ensures Strip(s) == s
  {
  }

  /** Stripping twice is stripping once. */
  lemma StripIdempotent(s: string)
    ensures Strip(Strip(s)) == Strip(s)
  {
    StripFixesTrimmed(Strip(s));
  }

  /** `s.replace(c, rep)` for a one-character pattern: every occurrence of `c` becomes `rep`. */
  function Replace(s: string, c: char, rep: string): (r: string)
    ensures c !in rep ==> c !in r
    ensures forall x :: x in r ==> x in s || x in rep
    ensures c !in s ==> r == s
    ensures |rep| >= 1 ==> |r| >= |s|
  {
    if s == [] then [] else (if s[0] == c then rep else [s[0]]) + Replace(s[1..], c, rep)
  }

  lemma {:induction false} ReplaceConcat(a: string, b: string, c: char, rep: string)
    ensures Replace(a + b, c, rep) == Replace(a, c, rep) + Replace(b, c, rep)
  {
    if a == [] {
      assert a + b == b;
    } else {
      var h := if a[0] == c then rep else [a[0]];
      assert (a + b)[0] == a[0];
      assert (a + b)[1..] == a[1..] + b;
      assert Replace(a + b, c, rep) == h + Replace(a[1..] + b, c, rep);
      ReplaceConcat(a[1..], b, c, rep);
      Seqs.Assoc(h, Replace(a[1..], c, rep), Replace(b, c, rep));
    }
  }

  /** `telegram_escape`: `&` first, then `<`, then `>`. */
  function TelegramEscape(text: string): (r: string)
    ensures '<' !in r && '>' !in r
    ensures ('&' !in text && '<' !in text && '>' !in text) ==> r == text
    ensures |r| >= |text|
  {
    Replace(Replace(Replace(text, '&', "&amp;"), '<', "&lt;"), '>', "&gt;")
  }

  /** The entity each character stands for in one left-to-right pass. */
  function EscapeChar(c: char): string {
    if c == '&' then "&amp;" else if c == '<' then "&lt;" else if c == '>' then "&gt;" else [c]
  }

  /** A single-pass escaper, independent of the order of the chained replacements. */
  function EscapeEach(s: string): string {
    if s == [] then [] else EscapeChar(s[0]) + EscapeEach(s[1..])
  }

  function Count(s: string, c: char): nat {
    if s == [] then 0 else (if s[0] == c then 1 else 0) + Count(s[1..], c)
  }

  lemma TelegramEscapeConcat(a: string, b: string)
    ensures TelegramEscape(a + b) == TelegramEscape(a) + TelegramEscape(b)
  {
    ReplaceConcat(a, b, '&', "&amp;");
    ReplaceConcat(Replace(a, '&', "&amp;"), Replace(b, '&', "&amp;"), '<', "&lt;");
    ReplaceConcat(Replace(Replace(a, '&', "&amp;"), '<', "&lt;"), Replace(Replace(b, '&', "&amp;"), '<', "&lt;"), '>', "&gt;");
  }

  lemma TelegramEscapeChar(c: char)
    ensures TelegramEscape([c]) == EscapeChar(c)
  {
    var r1 := Replace([c], '&', "&amp;");
    assert r1 == (if c == '&' then "&amp;" else [c]) + Replace([], '&', "&amp;");
    var r2 := Replace(r1, '<', "&lt;");
    if c == '&' {
      assert '<' !in "&amp;" && '>' !in "&amp;";
    } else {
      assert r2 == (if c == '<' then "&lt;" else [c]) + Replace([], '<', "&lt;");
      if c == '<' {
        assert '>' !in "&lt;";
      } else {
        assert Replace(r2, '>', "&gt;") == (if c == '>' then "&gt;" else [c]) + Replace([], '>', "&gt;");
      }
    }
  }

  /**
   * The three chained replacements escape every character independently:
   * the `&` of `&lt;` and `&gt;` is introduced after the `&` pass, so it is
   * never escaped twice.
   */
  lemma {:induction false} TelegramEscapeIsSinglePass(s: string)
    ensures TelegramEscape(s) == EscapeEach(s)
  {
    if s != [] {
      assert s == [s[0]] + s[1..];
      TelegramEscapeConcat([s[0]], s[1..]);
      TelegramEscapeChar(s[0]);
      TelegramEscapeIsSinglePass(s[1..]);
    }
  }

  /** Escaping grows the text by exactly the length of the entities it introduces. */
  lemma {:induction false} EscapeEachLength(s: string)
    ensures |EscapeEach(s)| == |s| + 4 * Count(s, '&') + 3 * Count(s, '<') + 3 * Count(s, '>')
  {
    if s != [] {
      EscapeEachLength(s[1..]);
    }
  }

  lemma TelegramEscapeLength(s: string)
    ensures |TelegramEscape(s)| == |s| + 4 * Count(s, '&') + 3 * Count(s, '<') + 3 * Count(s, '>')
  {
    TelegramEscapeIsSinglePass(s);
    EscapeEachLength(s);
  }
}
