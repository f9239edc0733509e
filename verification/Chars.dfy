/** Character classes and string helpers shared by the text-processing models.
    A Dafny `char` is a Unicode scalar value, as a Rust `char` is. */
module Chars {

  predicate IsDigit(c: char) {
    '0' <= c <= '9'
  }

  /** `is_ascii_alphanumeric() || '_'`. */
  predicate IsIdentChar(c: char) {
    IsDigit(c) || 'a' <= c <= 'z' || 'A' <= c <= 'Z' || c == '_'
  }

  /** The Unicode White_Space property, which is what `char::is_whitespace` tests. */
  predicate IsWhitespace(c: char) {
    var n := c as int;
    9 <= n <= 13 || n == 0x20 || n == 0x85 || n == 0xA0 || n == 0x1680 || 0x2000 <= n <= 0x200A
    || n == 0x2028 || n == 0x2029 || n == 0x202F || n == 0x205F || n == 0x3000
  }

  function LowerChar(c: char): char {
    if 'A' <= c <= 'Z' then (c as int + 32) as char else c
  }

  function Lower(s: string): string {
    seq(|s|, i requires 0 <= i < |s| => LowerChar(s[i]))
  }

  predicate EqualsIgnoringCase(a: string, b: string) {
    Lower(a) == Lower(b)
  }

  function TrimStart(s: string): string {
    if s != "" && IsWhitespace(s[0]) then TrimStart(s[1..]) else s
  }

  function TrimEnd(s: string): string {
    if s != "" && IsWhitespace(s[|s| - 1]) then TrimEnd(s[..|s| - 1]) else s
  }

  function Trim(s: string): string {
    TrimEnd(TrimStart(s))
  }

  predicate EndsWith(s: string, suffix: string) {
    |s| >= |suffix| && s[|s| - |suffix|..] == suffix
  }

  predicate StartsWithChar(s: string, c: char) {
    s != "" && s[0] == c
  }

  /** `v.replace(q, qq)`: every `q` doubled. */
  function Doubled(v: string, q: char): string {
    if v == "" then ""
    else (if v[0] == q then [q, q] else [v[0]]) + Doubled(v[1..], q)
  }

  predicate IsSpace(s: string) {
    forall c | c in s :: IsWhitespace(c)
  }

  /** Among ASCII characters: tab, the two feeds, vertical tab, return and space. */
  lemma AsciiWhitespace(c: char)
    requires c as int < 128
    ensures IsWhitespace(c) <==> c in {'\t', '\n', 11 as char, 12 as char, '\r', ' '}
  {
  }

  lemma {:induction false} TrimStartDrops(a: string, s: string)
    requires IsSpace(a) && (s == "" || !IsWhitespace(s[0]))
    ensures TrimStart(a + s) == s
  {
    if a == "" {
      assert a + s == s;
    } else {
      assert a[0] in a && (a + s)[1..] == a[1..] + s;
      forall c | c in a[1..] ensures IsWhitespace(c) { assert c in a; }
      TrimStartDrops(a[1..], s);
    }
  }

  lemma {:induction false} TrimEndDrops(s: string, b: string)
    requires IsSpace(b) && (s == "" || !IsWhitespace(s[|s| - 1]))
    ensures TrimEnd(s + b) == s
    decreases |b|
  {
    if b == "" {
      assert s + b == s;
    } else {
      var t := b[..|b| - 1];
      assert b[|b| - 1] in b && (s + b)[..|s + b| - 1] == s + t;
      forall c | c in t ensures IsWhitespace(c) { assert c in b; }
      TrimEndDrops(s, t);
    }
  }

  /** Trimming drops exactly the white space around. */
  lemma TrimDropsPadding(a: string, s: string, b: string)
    requires IsSpace(a) && IsSpace(b) && s != "" && !IsWhitespace(s[0]) && !IsWhitespace(s[|s| - 1])
    ensures Trim(a + (s + b)) == s
  {
    TrimStartDrops(a, s + b);
    TrimEndDrops(s, b);
  }
}
