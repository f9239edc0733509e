/** The SQL redactor: comments are dropped, then literals collapse to `?`.

    Two loops over a character iterator, each proved equal to a recursive
    specification (`Strip`, `Redact`). What those specifications promise is
    proved in `RedactionTheorems`. */
module Redaction {
  import opened Chars

  const PARAMETERISED_TYPES: seq<string> := [
    "DECIMAL", "DEC", "NUMERIC", "VARCHAR", "NVARCHAR", "CHAR", "CHARACTER", "VARYING",
    "BPCHAR", "TEXT", "STRING", "TIMESTAMP", "DATETIME", "BIT", "BITSTRING", "FLOAT"
  ]

  predicate Listed(word: string, types: seq<string>) {
    types != [] && (EqualsIgnoringCase(word, types[0]) || Listed(word, types[1..]))
  }

  predicate IsParameterisedType(word: string) {
    Listed(word, PARAMETERISED_TYPES)
  }

  // ---------------------------------------------------------------- scanning

  /** Characters of `s`, the text after an opening quote, up to and including
      the closing quote. A doubled quote does not close; an unclosed literal
      runs to the end. */
  function QuotedLen(s: string): (n: nat)
    ensures n <= |s|
  {
    if s == "" then 0
    else if s[0] != '\'' then 1 + QuotedLen(s[1..])
    else if |s| > 1 && s[1] == '\'' then 2 + QuotedLen(s[2..])
    else 1
  }

  /** Characters of `s` before its first newline. */
  function LineLen(s: string): (n: nat)
    ensures n <= |s|
    ensures n < |s| ==> s[n] == '\n'
    ensures forall i | 0 <= i < n :: s[i] != '\n'
  {
    if s == "" || s[0] == '\n' then 0 else 1 + LineLen(s[1..])
  }

  /** Characters of `s`, the text after an opening slash-star, up to and
      including the closing star-slash; `prev` is the character just read. */
  function BlockLen(s: string, prev: char): (n: nat)
    ensures n <= |s|
  {
    if s == "" then 0
    else if prev == '*' && s[0] == '/' then 1
    else 1 + BlockLen(s[1..], s[0])
  }

  predicate IsRunChar(c: char) {
    IsDigit(c) || c == '.'
  }

  /** Length of the leading run of digits and dots. */
  function RunLen(s: string): (n: nat)
    ensures n <= |s|
    ensures n < |s| ==> !IsRunChar(s[n])
    ensures forall i | 0 <= i < n :: IsRunChar(s[i])
  {
    if s == "" || !IsRunChar(s[0]) then 0 else 1 + RunLen(s[1..])
  }

  predicate OpensLineComment(s: string) {
    |s| > 1 && s[0] == '-' && s[1] == '-'
  }

  predicate OpensBlockComment(s: string) {
    |s| > 1 && s[0] == '/' && s[1] == '*'
  }

  // ------------------------------------------------- pass 1: strip comments

  function Strip(s: string): string
    decreases |s|
  {
    if s == "" then ""
    else if s[0] == '\'' then
      var n := 1 + QuotedLen(s[1..]);
      s[..n] + Strip(s[n..])
    else if OpensLineComment(s) then
      var n := 1 + LineLen(s[1..]);
      if n < |s| then "\n" + Strip(s[n + 1..]) else ""
    else if OpensBlockComment(s) then
      " " + Strip(s[2 + BlockLen(s[2..], '\0')..])
    else
      [s[0]] + Strip(s[1..])
  }

  lemma QuotedTurn(s: string)
    requires s != ""
    ensures var rest := s[1..];
      QuotedLen(s) == if s[0] != '\'' then 1 + QuotedLen(rest)
                      else if rest != "" && rest[0] == '\'' then 2 + QuotedLen(rest[1..]) else 1
  {
    if |s| > 1 { assert s[1..][1..] == s[2..]; }
  }

  lemma Next(s: string, k: nat)
    requires k < |s|
    ensures s[..k] + [s[k..][0]] == s[..k + 1] && s[k..][1..] == s[k + 1..]
  {
  }

  /** The inner loop over a string literal, after its opening quote: what it
      read, and what it left. */
  method TakeQuoted(s: string) returns (taken: string, rest: string)
    ensures taken == s[..QuotedLen(s)] && rest == s[QuotedLen(s)..]
  {
    taken, rest := "", s;
    var closed := false;
    ghost var read := 0;
    while rest != "" && !closed
      invariant read <= |s| && taken == s[..read] && rest == s[read..]
      invariant QuotedLen(s) == read + if closed then 0 else QuotedLen(rest)
      decreases |rest|
    {
      QuotedTurn(rest);
      Next(s, read);
      var n := rest[0];
      taken, rest, read := taken + [n], rest[1..], read + 1;
      if n == '\'' {
        if rest != "" && rest[0] == '\'' {
          Next(s, read);
          taken, rest, read := taken + [rest[0]], rest[1..], read + 1;
        } else {
          closed := true;
        }
      }
    }
  }

  /** What is kept of a line comment: its newline, if it has one. */
  function LineKept(s: string): string {
    if LineLen(s) < |s| then "\n" else ""
  }

  /** The inner loop over a line comment, after its first dash: what it pushed, and
      what it left. */
  method SkipLine(s: string) returns (kept: string, rest: string)
    ensures kept == LineKept(s) && rest == s[LineLen(s) + |kept|..]
  {
    kept, rest := "", s;
    ghost var skipped := 0;
    while rest != "" && kept == ""
      invariant skipped <= |s| && rest == s[skipped..] && (kept == "" || kept == "\n")
      invariant LineLen(s) == if kept == "" then skipped + LineLen(rest) else skipped - 1
      decreases |rest|
    {
      var n := rest[0];
      rest, skipped := rest[1..], skipped + 1;
      if n == '\n' {
        kept := "\n";
      }
    }
  }

  /** The inner loop over a block comment, after its slash-star. */
  method SkipBlock(s: string) returns (rest: string)
    ensures rest == s[BlockLen(s, '\0')..]
  {
    rest := s;
    var prev, closed := '\0', false;
    ghost var skipped := 0;
    while rest != "" && !closed
      invariant skipped <= |s| && rest == s[skipped..]
      invariant BlockLen(s, '\0') == skipped + if closed then 0 else BlockLen(rest, prev)
      decreases |rest|
    {
      var n := rest[0];
      rest, skipped := rest[1..], skipped + 1;
      if prev == '*' && n == '/' {
        closed := true;
      }
      prev := n;
    }
  }

  lemma Drop(s: string, i: nat, j: nat)
    requires i + j <= |s|
    ensures s[i..][j..] == s[i + j..]
  {
  }

  lemma Joined(a: string, b: string, c: string, bc: string)
    requires bc == b + c
    ensures a + bc == a + b + c
  {
  }

  // What one turn of the loop adds to the output, and what is left to do.

  lemma StripQuoted(s: string, taken: string, rest: string)
    requires s != "" && s[0] == '\''
    requires var n := QuotedLen(s[1..]); taken == s[1..][..n] && rest == s[1..][n..]
    ensures Strip(s) == "'" + taken + Strip(rest)
  {
    var n := QuotedLen(s[1..]);
    Drop(s, 1, n);
    assert "'" + taken == s[..1 + n];
  }

  lemma StripLine(s: string, kept: string, rest: string)
    requires OpensLineComment(s)
    requires kept == LineKept(s[1..]) && rest == s[1..][LineLen(s[1..]) + |kept|..]
    ensures Strip(s) == kept + Strip(rest)
  {
    if LineLen(s[1..]) < |s[1..]| {
      Drop(s, 1, LineLen(s[1..]) + 1);
      StripInnerLine(s, rest);
    } else {
      StripLastLine(s);
      assert Strip(rest) == "";
    }
  }

  lemma StripInnerLine(s: string, rest: string)
    requires OpensLineComment(s) && LineLen(s[1..]) < |s[1..]| && rest == s[LineLen(s[1..]) + 2..]
    ensures Strip(s) == "\n" + Strip(rest)
  {
  }

  lemma StripLastLine(s: string)
    requires OpensLineComment(s) && LineLen(s[1..]) == |s[1..]|
    ensures Strip(s) == ""
  {
  }

  lemma StripBlock(s: string, rest: string)
    requires OpensBlockComment(s) && rest == s[2..][BlockLen(s[2..], '\0')..]
    ensures Strip(s) == " " + Strip(rest)
  {
    Drop(s, 2, BlockLen(s[2..], '\0'));
  }

  lemma StripOther(s: string)
    requires s != "" && s[0] != '\'' && !OpensLineComment(s) && !OpensBlockComment(s)
    ensures Strip(s) == [s[0]] + Strip(s[1..])
  {
  }

  /** `strip_sql_comments`: `chars` is the iterator, that is the text left. */
  method StripSqlComments(sql: string) returns (out: string)
    ensures out == Strip(sql)
  {
    out := "";
    var chars := sql;
    ghost var all := Strip(sql);
    assert out + Strip(chars) == all;
    while chars != ""
      invariant out + Strip(chars) == all
      decreases |chars|
    {
      var c := chars[0];
      if c == '\'' {
        var taken, rest := TakeQuoted(chars[1..]);
        StripQuoted(chars, taken, rest);
        Joined(out, "'" + taken, Strip(rest), Strip(chars));
        out, chars := out + ("'" + taken), rest;
      } else if c == '-' && |chars| > 1 && chars[1] == '-' {
        var kept, rest := SkipLine(chars[1..]);
        StripLine(chars, kept, rest);
        Joined(out, kept, Strip(rest), Strip(chars));
        out, chars := out + kept, rest;
      } else if c == '/' && |chars| > 1 && chars[1] == '*' {
        var rest := SkipBlock(chars[2..]);
        StripBlock(chars, rest);
        Joined(out, " ", Strip(rest), Strip(chars));
        out, chars := out + " ", rest;
      } else {
        StripOther(chars);
        Joined(out, [c], Strip(chars[1..]), Strip(chars));
        out, chars := out + [c], chars[1..];
      }
    }
    assert Strip(chars) == "";
  }

  // --------------------------------------------- pass 2: collapse literals

  /** The mutable flags of `redact_sql`. */
  datatype Mode = Mode(prevIdent: bool, word: string, typeWordPending: bool, inTypeParams: bool)

  const START := Mode(false, "", false, false)

  /** The flags after a literal has been collapsed. */
  function AfterLiteral(m: Mode): Mode {
    Mode(false, "", false, m.inTypeParams)
  }

  /** The flags after `c` has been copied to the output. */
  function Copied(m: Mode, c: char): Mode {
    if IsIdentChar(c) then m.(prevIdent := true, word := m.word + [c])
    else
      var pending := if m.word != "" then IsParameterisedType(m.word) else m.typeWordPending;
      if c == '(' then Mode(false, "", false, pending)
      else if c == ')' then Mode(false, "", false, false)
      else Mode(false, "", pending && IsWhitespace(c), m.inTypeParams)
  }

  predicate StartsNumber(s: string, m: Mode) {
    s != "" && IsDigit(s[0]) && !m.prevIdent && !m.inTypeParams
  }

  function Redact(s: string, m: Mode): string
    decreases |s|
  {
    if s == "" then ""
    else if s[0] == '\'' then "?" + Redact(s[1 + QuotedLen(s[1..])..], AfterLiteral(m))
    else if StartsNumber(s, m) then "?" + Redact(s[1 + RunLen(s[1..])..], AfterLiteral(m))
    else [s[0]] + Redact(s[1..], Copied(m, s[0]))
  }

  /** What `redact_sql` computes, as a function of the statement. */
  function RedactSpec(sql: string): string {
    Redact(Strip(sql), START)
  }

  /** The inner loop over a numeric literal, after its first digit. */
  method SkipRun(s: string) returns (rest: string)
    ensures rest == s[RunLen(s)..]
  {
    rest := s;
    ghost var skipped := 0;
    while rest != "" && (IsDigit(rest[0]) || rest[0] == '.')
      invariant skipped <= |s| && rest == s[skipped..]
      invariant RunLen(s) == skipped + RunLen(rest)
      decreases |rest|
    {
      rest, skipped := rest[1..], skipped + 1;
    }
  }

  /** The flag updates of the loop's last branch. */
  method CopyFlags(m: Mode, c: char) returns (m': Mode)
    ensures m' == Copied(m, c)
  {
    var word, typeWordPending, inTypeParams := m.word, m.typeWordPending, m.inTypeParams;
    var identChar := IsIdentChar(c);
    if identChar {
      word := word + [c];
    } else {
      if word != "" {
        typeWordPending := IsParameterisedType(word);
        word := "";
      }
      if c == '(' {
        inTypeParams := typeWordPending;
        typeWordPending := false;
      } else if c == ')' {
        inTypeParams := false;
        typeWordPending := false;
      } else if !IsWhitespace(c) {
        typeWordPending := false;
      }
    }
    m' := Mode(identChar, word, typeWordPending, inTypeParams);
  }

  lemma RedactQuoted(s: string, m: Mode, rest: string)
    requires s != "" && s[0] == '\'' && rest == s[1..][QuotedLen(s[1..])..]
    ensures Redact(s, m) == "?" + Redact(rest, AfterLiteral(m))
  {
    Drop(s, 1, QuotedLen(s[1..]));
  }

  lemma RedactNumber(s: string, m: Mode, rest: string)
    requires StartsNumber(s, m) && rest == s[1..][RunLen(s[1..])..]
    ensures Redact(s, m) == "?" + Redact(rest, AfterLiteral(m))
  {
    Drop(s, 1, RunLen(s[1..]));
  }

  lemma RedactOther(s: string, m: Mode)
    requires s != "" && s[0] != '\'' && !StartsNumber(s, m)
    ensures Redact(s, m) == [s[0]] + Redact(s[1..], Copied(m, s[0]))
  {
  }

  /** `redact_sql`. */
  method RedactSql(sql: string) returns (out: string)
    ensures out == RedactSpec(sql)
  {
    var decommented := StripSqlComments(sql);
    out := "";
    var chars := decommented;
    var mode := START;
    ghost var all := RedactSpec(sql);
    assert out + Redact(chars, mode) == all;
    while chars != ""
      invariant out + Redact(chars, mode) == all
      decreases |chars|
    {
      var c := chars[0];
      if c == '\'' {
        var _, rest := TakeQuoted(chars[1..]);
        RedactQuoted(chars, mode, rest);
        Joined(out, "?", Redact(rest, AfterLiteral(mode)), Redact(chars, mode));
        chars, out, mode := rest, out + "?", AfterLiteral(mode);
      } else if IsDigit(c) && !mode.prevIdent && !mode.inTypeParams {
        var rest := SkipRun(chars[1..]);
        RedactNumber(chars, mode, rest);
        Joined(out, "?", Redact(rest, AfterLiteral(mode)), Redact(chars, mode));
        chars, out, mode := rest, out + "?", AfterLiteral(mode);
      } else {
        RedactOther(chars, mode);
        Joined(out, [c], Redact(chars[1..], Copied(mode, c)), Redact(chars, mode));
        mode := CopyFlags(mode, c);
        out, chars := out + [c], chars[1..];
      }
    }
    assert Redact(chars, mode) == "";
  }
}
