/**
  Search terms as LIKE patterns: the escaping of wildcards and what the escaped
  pattern matches, with the meaning LIKE ... ESCAPE '\' has in section 8.5 of SQL-92.
 */
module LikePattern {

  // strings.ReplaceAll for a one-character text.
  function ReplaceAll(s: string, c: char, replacement: string): string {
    if s == "" then ""
    else (if s[0] == c then replacement else [s[0]]) + ReplaceAll(s[1..], c, replacement)
  }

  // The three replacements in the order they are made, the escape character first.
  function EscapeLikePattern(s: string): string {
    var s := ReplaceAll(s, '\\', "\\\\");
    var s := ReplaceAll(s, '%', "\\%");
    ReplaceAll(s, '_', "\\_")
  }

  function EscapeChar(c: char): string {
    if c == '\\' || c == '%' || c == '_' then ['\\', c] else [c]
  }

  // One pass over the text.
  function EscapeOnce(s: string): string {
    if s == "" then "" else EscapeChar(s[0]) + EscapeOnce(s[1..])
  }

  lemma {:induction false} ReplaceAllAppend(a: string, b: string, c: char, replacement: string)
    ensures ReplaceAll(a + b, c, replacement) == ReplaceAll(a, c, replacement) + ReplaceAll(b, c, replacement)
  {
    if a == "" {
      assert a + b == b;
    } else {
      assert (a + b)[1..] == a[1..] + b;
      ReplaceAllAppend(a[1..], b, c, replacement);
    }
  }

  lemma ReplaceOne(c: char, x: char, replacement: string)
    ensures ReplaceAll([x], c, replacement) == if x == c then replacement else [x]
  {
    assert [x][1..] == "";
  }

  lemma ReplacePair(x: char, y: char, c: char, replacement: string)
    ensures ReplaceAll([x, y], c, replacement) == (if x == c then replacement else [x]) + (if y == c then replacement else [y])
  {
    ReplaceAllAppend([x], [y], c, replacement);
    ReplaceOne(c, x, replacement);
    ReplaceOne(c, y, replacement);
    assert [x] + [y] == [x, y];
  }

  lemma {:induction false} EscapeCharInThree(c: char)
    ensures EscapeLikePattern([c]) == EscapeChar(c)
  {
    ReplaceOne('\\', c, "\\\\");
    if c == '\\' {
      ReplacePair('\\', '\\', '%', "\\%");
      ReplacePair('\\', '\\', '_', "\\_");
    } else if c == '%' {
      ReplaceOne('%', c, "\\%");
      ReplacePair('\\', '%', '_', "\\_");
    } else {
      ReplaceOne('%', c, "\\%");
      ReplaceOne('_', c, "\\_");
    }
  }

  lemma {:induction false} EscapeAppend(a: string, b: string)
    ensures EscapeLikePattern(a + b) == EscapeLikePattern(a) + EscapeLikePattern(b)
  {
    ReplaceAllAppend(a, b, '\\', "\\\\");
    var a1, b1 := ReplaceAll(a, '\\', "\\\\"), ReplaceAll(b, '\\', "\\\\");
    ReplaceAllAppend(a1, b1, '%', "\\%");
    ReplaceAllAppend(ReplaceAll(a1, '%', "\\%"), ReplaceAll(b1, '%', "\\%"), '_', "\\_");
  }

  /** The three ordered replacements escape each wildcard, and each backslash, exactly once. */
  lemma {:induction false} ReplacementsEscapeOnce(s: string)
    ensures EscapeLikePattern(s) == EscapeOnce(s)
  {
    if s == "" {
    } else {
      assert s == [s[0]] + s[1..];
      EscapeAppend([s[0]], s[1..]);
      EscapeCharInThree(s[0]);
      ReplacementsEscapeOnce(s[1..]);
    }
  }

  // ---------------------------------------------------------------- matching

  // A backslash makes the next character literal; at the end of a pattern it matches nothing.
  predicate Like(text: string, pattern: string)
    decreases |pattern| + |text|
  {
    if pattern == "" then text == ""
    else if pattern[0] == '\\' then
      |pattern| >= 2 && text != "" && text[0] == pattern[1] && Like(text[1..], pattern[2..])
    else if pattern[0] == '%' then
      Like(text, pattern[1..]) || (text != "" && Like(text[1..], pattern))
    else
      text != "" && (pattern[0] == '_' || text[0] == pattern[0]) && Like(text[1..], pattern[1..])
  }

  predicate IsPrefix(s: string, text: string) {
    |s| <= |text| && text[..|s|] == s
  }

  ghost predicate IsSubstring(s: string, text: string) {
    exists i :: 0 <= i <= |text| && IsPrefix(s, text[i..])
  }

  lemma {:induction false} LikeEscapedPrefix(s: string, rest: string, text: string)
    ensures Like(text, EscapeOnce(s) + rest) <==> IsPrefix(s, text) && Like(text[|s|..], rest)
    decreases |s|
  {
    var pattern := EscapeOnce(s) + rest;
    if s == "" {
      assert pattern == rest;
    } else {
      var tail := EscapeOnce(s[1..]) + rest;
      assert pattern == EscapeChar(s[0]) + tail;
      if EscapeChar(s[0]) == [s[0]] {
        assert pattern[1..] == tail;
      } else {
        assert pattern[0] == '\\' && pattern[1] == s[0] && pattern[2..] == tail;
      }
      if text != "" && text[0] == s[0] {
        LikeEscapedPrefix(s[1..], rest, text[1..]);
        assert IsPrefix(s, text) <==> IsPrefix(s[1..], text[1..]) by {
          assert s == [s[0]] + s[1..];
          if |s| <= |text| {
            assert text[..|s|] == [text[0]] + text[1..][..|s| - 1];
          }
        }
        if IsPrefix(s, text) {
          assert text[1..][|s| - 1..] == text[|s|..];
        }
      }
    }
  }

  lemma {:induction false} LikeAnything(text: string)
    ensures Like(text, "%")
  {
    assert "%"[1..] == "";
    if text == "" {
    } else {
      LikeAnything(text[1..]);
    }
  }

  lemma {:induction false} LikeAnywhere(pattern: string, text: string)
    ensures Like(text, "%" + pattern) <==> exists i :: 0 <= i <= |text| && Like(text[i..], pattern)
  {
    var whole := "%" + pattern;
    assert whole[1..] == pattern && whole[0] == '%';
    assert text[0..] == text;
    if text == "" {
    } else {
      LikeAnywhere(pattern, text[1..]);
      if Like(text[1..], whole) {
        var i :| 0 <= i <= |text[1..]| && Like(text[1..][i..], pattern);
        assert text[1..][i..] == text[i + 1..];
      }
      if exists i :: 1 <= i <= |text| && Like(text[i..], pattern) {
        var i :| 1 <= i <= |text| && Like(text[i..], pattern);
        assert text[1..][i - 1..] == text[i..];
      }
    }
  }

  /**
    The pattern built from a search term matches a text exactly when the term occurs in it, character for character.
   */
  lemma {:induction false} EscapedPatternMatchesSubstring(s: string, text: string)
    ensures Like(text, "%" + EscapeLikePattern(s) + "%") <==> IsSubstring(s, text)
  {
    ReplacementsEscapeOnce(s);
    var pattern := EscapeOnce(s) + "%";
    assert "%" + EscapeLikePattern(s) + "%" == "%" + pattern;
    LikeAnywhere(pattern, text);
    forall i | 0 <= i <= |text|
      ensures Like(text[i..], pattern) <==> IsPrefix(s, text[i..])
    {
      LikeEscapedPrefix(s, "%", text[i..]);
      if IsPrefix(s, text[i..]) {
        LikeAnything(text[i..][|s|..]);
      }
    }
  }
}
