/** Turning a search query into a LIKE pattern (src/routes/search.rs), against what LIKE means
    (section 8.5 of ISO/IEC 9075-2, with the escape character `\`). */
module LikePattern {
  const ESCAPE := '\\'

  /** `str::replace` with a one-character pattern. */
  function ReplaceChar(s: string, c: char, replacement: string): string {
    if s == "" then ""
    else (if s[0] == c then replacement else [s[0]]) + ReplaceChar(s[1..], c, replacement)
  }

  /** `escape_like`: three replacements, backslash first. */
  function EscapeLike(q: string): string {
    ReplaceChar(ReplaceChar(ReplaceChar(q, '\\', "\\\\"), '%', "\\%"), '_', "\\_")
  }

  function ContainsEscaped(q: string): string {
    "%" + EscapeLike(q) + "%"
  }

  predicate Special(c: char) {
    c == '\\' || c == '%' || c == '_'
  }

  /** Every escape character is followed by a special one; anything else is an invalid escape sequence. */
  predicate WellFormed(pattern: string) {
    pattern == ""
    || (if pattern[0] == ESCAPE then |pattern| >= 2 && Special(pattern[1]) && WellFormed(pattern[2..])
        else WellFormed(pattern[1..]))
  }

  /** What a well-formed pattern matches. */
  ghost predicate Like(pattern: string, s: string)
    requires WellFormed(pattern)
    decreases |pattern|
  {
    if pattern == "" then s == ""
    else if pattern[0] == '%' then exists k :: 0 <= k <= |s| && Like(pattern[1..], s[k..])
    else if pattern[0] == '_' then s != "" && Like(pattern[1..], s[1..])
    else if pattern[0] == ESCAPE then s != "" && s[0] == pattern[1] && Like(pattern[2..], s[1..])
    else s != "" && s[0] == pattern[0] && Like(pattern[1..], s[1..])
  }

  /** `q` occurs in `s` at position `i`. */
  predicate OccursAt(q: string, s: string, i: nat) {
    i + |q| <= |s| && s[i..i + |q|] == q
  }

  // ---- The three replacements are one per-character map ----

  function EscapedChar(c: char): string {
    if Special(c) then [ESCAPE, c] else [c]
  }

  function EscapeEach(q: string): string {
    if q == "" then "" else EscapedChar(q[0]) + EscapeEach(q[1..])
  }

  function Unescape(p: string): string {
    if p == "" then ""
    else if p[0] == ESCAPE && |p| >= 2 then [p[1]] + Unescape(p[2..])
    else [p[0]] + Unescape(p[1..])
  }

  lemma {:induction false} ReplaceConcat(a: string, b: string, c: char, replacement: string)
    ensures ReplaceChar(a + b, c, replacement) == ReplaceChar(a, c, replacement) + ReplaceChar(b, c, replacement)
  {
    if a == "" {
      assert a + b == b;
    } else {
      assert (a + b)[1..] == a[1..] + b;
      ReplaceConcat(a[1..], b, c, replacement);
    }
  }

  lemma ReplaceOne(d: char, c: char, replacement: string)
    ensures ReplaceChar([d], c, replacement) == if d == c then replacement else [d]
  {
    assert [d][1..] == "";
  }

  lemma ReplaceTwo(d: char, e: char, c: char, replacement: string)
    ensures ReplaceChar([d, e], c, replacement) == (if d == c then replacement else [d]) + (if e == c then replacement else [e])
  {
    assert [d, e] == [d] + [e];
    ReplaceConcat([d], [e], c, replacement);
    ReplaceOne(d, c, replacement);
    ReplaceOne(e, c, replacement);
  }

  lemma EscapeOneChar(c: char)
    ensures EscapeLike([c]) == EscapedChar(c)
  {
    ReplaceOne(c, '\\', "\\\\");
    ReplaceOne(c, '%', "\\%");
    ReplaceOne(c, '_', "\\_");
    ReplaceTwo('\\', c, '%', "\\%");
    ReplaceTwo('\\', c, '_', "\\_");
  }

  /** Escaping one character at a time gives the same text: no escape is ever escaped again. */
  lemma {:induction false} EscapeIsPerCharacter(q: string)
    ensures EscapeLike(q) == EscapeEach(q)
  {
    if q != "" {
      var head, tail := [q[0]], q[1..];
      assert q == head + tail;
      ReplaceConcat(head, tail, '\\', "\\\\");
      ReplaceConcat(ReplaceChar(head, '\\', "\\\\"), ReplaceChar(tail, '\\', "\\\\"), '%', "\\%");
      ReplaceConcat(ReplaceChar(ReplaceChar(head, '\\', "\\\\"), '%', "\\%"),
                    ReplaceChar(ReplaceChar(tail, '\\', "\\\\"), '%', "\\%"), '_', "\\_");
      EscapeOneChar(q[0]);
      EscapeIsPerCharacter(tail);
    }
  }

  /** Nothing is lost: the query can be read back, so different queries give different patterns. */
  lemma {:induction false} UnescapeInverts(q: string)
    ensures Unescape(EscapeLike(q)) == q
  {
    EscapeIsPerCharacter(q);
    if q != "" {
      UnescapeInverts(q[1..]);
      EscapeIsPerCharacter(q[1..]);
      var p, rest := EscapeEach(q), EscapeEach(q[1..]);
      if Special(q[0]) {
        assert p[2..] == rest;
      } else {
        assert p[1..] == rest;
      }
    }
  }

  // ---- Matching ----

  /** An escaped character is well-formed and stands for itself. */
  lemma OneLiteral(c: char, rest: string, s: string)
    requires WellFormed(rest)
    ensures WellFormed(EscapedChar(c) + rest)
    ensures Like(EscapedChar(c) + rest, s) <==> s != "" && s[0] == c && Like(rest, s[1..])
  {
    var p := EscapedChar(c) + rest;
    if Special(c) {
      assert p[0] == ESCAPE && p[1] == c && p[2..] == rest;
    } else {
      assert p[0] == c && p[1..] == rest;
    }
  }

  lemma OccursStep(q: string, s: string)
    requires q != "" && s != ""
    ensures OccursAt(q, s, 0) <==> s[0] == q[0] && OccursAt(q[1..], s[1..], 0)
    ensures |q| <= |s| ==> s[|q|..] == s[1..][|q| - 1..]
  {
    if |q| <= |s| {
      assert s[0..|q|] == [s[0]] + s[1..][0..|q| - 1];
      assert q == [q[0]] + q[1..];
    }
  }

  lemma {:induction false} LiteralPrefix(q: string, rest: string, s: string)
    requires WellFormed(rest)
    ensures WellFormed(EscapeEach(q) + rest)
    ensures Like(EscapeEach(q) + rest, s) <==> OccursAt(q, s, 0) && Like(rest, s[|q|..])
  {
    if q == "" {
      assert EscapeEach(q) + rest == rest;
      assert s[0..] == s;
    } else {
      var tail := EscapeEach(q[1..]) + rest;
      assert EscapeEach(q) + rest == EscapedChar(q[0]) + tail;
      LiteralPrefix(q[1..], rest, if s == "" then s else s[1..]);
      OneLiteral(q[0], tail, s);
      if s != "" { OccursStep(q, s); }
    }
  }

  lemma TrailingPercentMatchesAll(s: string)
    ensures WellFormed("%") && Like("%", s)
  {
    assert "%"[1..] == "";
    assert s[|s|..] == "" && Like("", s[|s|..]);
  }

  lemma LiteralSomewhere(q: string, s: string, k: nat)
    requires k <= |s|
    ensures WellFormed(EscapeEach(q) + "%")
    ensures Like(EscapeEach(q) + "%", s[k..]) <==> OccursAt(q, s, k)
  {
    TrailingPercentMatchesAll("");
    LiteralPrefix(q, "%", s[k..]);
    if k + |q| <= |s| {
      assert s[k..k + |q|] == s[k..][0..|q|];
      TrailingPercentMatchesAll(s[k..][|q|..]);
    }
  }

  /** Escaping preserves meaning: the pattern is valid for every query, and matches exactly the texts that contain it. */
  lemma ContainsEscapedMeansContains(q: string, s: string)
    ensures WellFormed(ContainsEscaped(q))
    ensures Like(ContainsEscaped(q), s) <==> exists i :: 0 <= i <= |s| && OccursAt(q, s, i)
  {
    var p, tail := ContainsEscaped(q), EscapeEach(q) + "%";
    EscapeIsPerCharacter(q);
    assert p == "%" + tail && p[1..] == tail;
    LiteralSomewhere(q, s, 0);
    assert Like(p, s) <==> exists k :: 0 <= k <= |s| && Like(tail, s[k..]);
    forall k | 0 <= k <= |s| ensures Like(tail, s[k..]) <==> OccursAt(q, s, k) {
      LiteralSomewhere(q, s, k);
    }
  }
}
