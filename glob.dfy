/** regexFromPattern, which cmd/rpk/common.go and cmd/rpk/main.go both define with the same
    text: a file glob becomes the source of an anchored regular expression, rune by rune.
    Compiling that source is the regexp package's business and is not modelled. */
module Glob {

  /** The runes that have a meaning in a regular expression and are escaped with a backslash. */
  const SPECIAL: set<char> := {'.', '(', ')', '+', '|', '^', '$', '[', ']', '{', '}', '\\'}

  /** What one rune of the pattern becomes. */
  function Translate(c: char): (t: string)
    ensures 1 <= |t| <= 2 && t[0] != '*'
  {
    if c == '*' then ".*"
    else if c == '?' then "."
    else if c in SPECIAL then ['\\', c]
    else [c]
  }

  /** The translated pattern, between the anchors. */
  function Body(p: string): (b: string)
    ensures |p| <= |b| <= 2 * |p|
    ensures b == [] || b[0] != '*'
  {
    if p == [] then [] else Translate(p[0]) + Body(p[1..])
  }

  /** regexFromPattern's regular expression source: `^`, the translated runes, `$`. */
  function RegexFromPattern(p: string): (r: string)
    ensures |p| + 2 <= |r| <= 2 * |p| + 2
    ensures r[0] == '^' && r[|r| - 1] == '$'
    ensures r[1..|r| - 1] == Body(p)
  {
    "^" + Body(p) + "$"
  }

  /** Reads a translated body back into the pattern it came from: `.*` is a star, a lone `.`
      a question mark, a backslash escapes the rune after it, and anything else stands for
      itself. */
  function PatternOf(b: string): string
    decreases |b|
  {
    if b == [] then []
    else if |b| >= 2 && b[0] == '.' && b[1] == '*' then ['*'] + PatternOf(b[2..])
    else if b[0] == '.' then ['?'] + PatternOf(b[1..])
    else if |b| >= 2 && b[0] == '\\' then [b[1]] + PatternOf(b[2..])
    else [b[0]] + PatternOf(b[1..])
  }

  lemma TranslateThenRead(c: char, rest: string)
    requires rest == [] || rest[0] != '*'
    ensures PatternOf(Translate(c) + rest) == [c] + PatternOf(rest)
  {
    var b := Translate(c) + rest;
    if c == '*' {
      assert b[2..] == rest;
    } else if c == '?' {
      assert b[1..] == rest;
    } else if c in SPECIAL {
      assert b[2..] == rest;
    } else {
      assert b[1..] == rest;
    }
  }

  /** The translation loses nothing: the pattern can be read back from the body. */
  lemma {:induction false} BodyRoundTrip(p: string)
    ensures PatternOf(Body(p)) == p
  {
    if p != [] {
      TranslateThenRead(p[0], Body(p[1..]));
      BodyRoundTrip(p[1..]);
    }
  }

  /** Distinct patterns give distinct regular expressions. */
  lemma RegexInjective(p: string, q: string)
    requires RegexFromPattern(p) == RegexFromPattern(q)
    ensures p == q
  {
    var r := RegexFromPattern(p);
    BodyRoundTrip(p);
    BodyRoundTrip(q);
    assert Body(p) == r[1..|r| - 1] == Body(q);
  }

  /** The translation works rune by rune: a concatenation of patterns translates to the
      concatenation of their translations. */
  lemma {:induction false} BodyAppend(p: string, q: string)
    ensures Body(p + q) == Body(p) + Body(q)
  {
    if p == [] {
      assert p + q == q;
    } else {
      assert (p + q)[1..] == p[1..] + q;
      BodyAppend(p[1..], q);
    }
  }

  /** Each rune's own translation: a star becomes `.*`, a question mark `.`, a special rune
      gets a backslash in front, and every other rune is kept. */
  lemma EachRune(c: char)
    ensures Body([c]) == Translate(c)
    ensures c == '*' ==> Body([c]) == ".*"
    ensures c == '?' ==> Body([c]) == "."
    ensures c in SPECIAL ==> Body([c]) == ['\\', c]
    ensures c != '*' && c != '?' && c !in SPECIAL ==> Body([c]) == [c]
  {
    assert [c][1..] == [];
  }

  /** A pattern without wildcards or special runes is matched literally: its body is itself. */
  lemma {:induction false} PlainPatternIsLiteral(p: string)
    requires forall i :: 0 <= i < |p| ==> p[i] != '*' && p[i] != '?' && p[i] !in SPECIAL
    ensures Body(p) == p
  {
    if p != [] {
      PlainPatternIsLiteral(p[1..]);
    }
  }
}
