/** What the redactor makes of statements, spelled out: these facts name no list and
    no character class of the redactor's own. */
module RedactedStatements {
  import opened Chars
  import opened Options
  import opened Redaction
  import opened RedactionTheorems
  import SqlLiterals

  // ----------------------------------------------------------- the type words

  lemma {:induction false} ListedMeans(word: string, types: seq<string>)
    ensures Listed(word, types) <==> exists i | 0 <= i < |types| :: Lower(word) == Lower(types[i])
  {
    if types == [] {
    } else {
      ListedMeans(word, types[1..]);
      if i :| 0 <= i < |types| && Lower(word) == Lower(types[i]) && i > 0 {
        assert types[1..][i - 1] == types[i];
      }
      if i :| 0 <= i < |types[1..]| && Lower(word) == Lower(types[1..][i]) {
        assert types[i + 1] == types[1..][i];
      }
    }
  }

  lemma LowerIs(upper: string, lower: string)
    requires |upper| == |lower| && forall i | 0 <= i < |upper| :: LowerChar(upper[i]) == lower[i]
    ensures Lower(upper) == lower
  {
  }

  lemma FirstEight(t: seq<string>)
    requires t == PARAMETERISED_TYPES
    ensures |t| == 16
    ensures Lower(t[0]) == "decimal" && Lower(t[1]) == "dec" && Lower(t[2]) == "numeric" && Lower(t[3]) == "varchar"
    ensures Lower(t[4]) == "nvarchar" && Lower(t[5]) == "char" && Lower(t[6]) == "character" && Lower(t[7]) == "varying"
  {
    LowerIs(t[0], "decimal");
    LowerIs(t[1], "dec");
    LowerIs(t[2], "numeric");
    LowerIs(t[3], "varchar");
    LowerIs(t[4], "nvarchar");
    LowerIs(t[5], "char");
    LowerIs(t[6], "character");
    LowerIs(t[7], "varying");
  }

  lemma LastEight(t: seq<string>)
    requires t == PARAMETERISED_TYPES
    ensures |t| == 16
    ensures Lower(t[8]) == "bpchar" && Lower(t[9]) == "text" && Lower(t[10]) == "string" && Lower(t[11]) == "timestamp"
    ensures Lower(t[12]) == "datetime" && Lower(t[13]) == "bit" && Lower(t[14]) == "bitstring" && Lower(t[15]) == "float"
  {
    LowerIs(t[8], "bpchar");
    LowerIs(t[9], "text");
    LowerIs(t[10], "string");
    LowerIs(t[11], "timestamp");
    LowerIs(t[12], "datetime");
    LowerIs(t[13], "bit");
    LowerIs(t[14], "bitstring");
    LowerIs(t[15], "float");
  }

  lemma TypeWordsAre(word: string)
    ensures IsParameterisedType(word) <==>
      Lower(word) in {"decimal", "dec", "numeric", "varchar", "nvarchar", "char", "character", "varying",
                      "bpchar", "text", "string", "timestamp", "datetime", "bit", "bitstring", "float"}
  {
    var t := PARAMETERISED_TYPES;
    FirstEight(t);
    LastEight(t);
    ListedMeans(word, t);
    OneOfSixteen(Lower(word), t);
  }

  lemma OneOfSixteen(l: string, t: seq<string>)
    requires |t| == 16
    ensures (exists i | 0 <= i < |t| :: l == Lower(t[i])) <==>
      l in {Lower(t[0]), Lower(t[1]), Lower(t[2]), Lower(t[3]), Lower(t[4]), Lower(t[5]), Lower(t[6]), Lower(t[7]),
            Lower(t[8]), Lower(t[9]), Lower(t[10]), Lower(t[11]), Lower(t[12]), Lower(t[13]), Lower(t[14]), Lower(t[15])}
  {
  }

  // ------------------------------------------------------ digits in parentheses

  predicate IsWord(w: string) {
    (forall c | c in w :: 'a' <= c <= 'z' || 'A' <= c <= 'Z' || c == '_' || '0' <= c <= '9') && (w != "" ==> !('0' <= w[0] <= '9'))
  }

  predicate IsDigits(d: string) {
    d != "" && forall c | c in d :: '0' <= c <= '9'
  }

  lemma {:induction false} LastWordOfWord(w: string)
    requires forall c | c in w :: IsIdentChar(c)
    ensures LastWord(w) == w
    decreases |w|
  {
    if w == "" {
    } else {
      assert w[|w| - 1] in w;
      LastWordOfWord(w[..|w| - 1]);
      assert w == w[..|w| - 1] + [w[|w| - 1]];
    }
  }

  lemma EndsInTypeWordIs(w: string, s: string)
    requires IsWord(w) && IsSpace(s)
    ensures EndsInTypeWord(w + s) == IsParameterisedType(w)
  {
    if w != "" { assert w[|w| - 1] in w; }
    TrimEndDrops(w, s);
    LastWordOfWord(w);
  }

  /** The flags right after a character that is no identifier's. */
  lemma FlagsAfter(x: string, c: char)
    requires !IsIdentChar(c)
    ensures var m := Track(START, x + [c]);
      !m.prevIdent && m.inTypeParams == if c == '(' then EndsInTypeWord(x) else c != ')' && InsideTypeParens(x)
  {
    TrackMeaning(x + [c]);
    InsideTypeParensSnoc(x, c);
    Snoc(x, c);
  }

  lemma OpenedByWord(w: string, s: string)
    requires IsWord(w) && IsSpace(s)
    ensures var m := Track(START, w + s + "("); !m.prevIdent && m.inTypeParams == IsParameterisedType(w)
  {
    EndsInTypeWordIs(w, s);
    FlagsAfter(w + s, '(');
  }

  lemma FrameIsPlain(w: string, s: string)
    requires IsWord(w) && IsSpace(s)
    ensures SqlLiterals.Plain(w + s + "(", false)
  {
    SqlLiterals.WordIsPlain(w, false);
    forall i | 0 <= i < |s| ensures SqlLiterals.IsInert(s[i]) { assert s[i] in s; }
    SqlLiterals.InertIsPlain(s, false);
    SqlLiterals.InertIsPlain("(", false);
    SqlLiterals.PlainConcat(w, s, false);
    SqlLiterals.PlainConcat(w + s, "(", false);
  }

  /** Inside the parentheses of a type, digits are copied. */
  lemma {:induction false} DigitsAreCopied(d: string, rest: string, m: Mode)
    requires (forall c | c in d :: '0' <= c <= '9') && (m.inTypeParams || m.prevIdent)
    ensures OnePass(d + rest, m) == d + OnePass(rest, Track(m, d))
    decreases |d|
  {
    if d == "" {
      assert d + rest == rest;
    } else {
      assert d[0] in d;
      Behead(d, rest);
      forall c | c in d[1..] ensures '0' <= c <= '9' { assert c in d; }
      DigitsAreCopied(d[1..], rest, Copied(m, d[0]));
      TrackOne(m, d[0]);
      OnePassStep(d + rest, m, 1, d[1..] + rest);
      Rejoin([d[0]], d[1..], OnePass(rest, Track(m, d)));
      assert d == [d[0]] + d[1..];
    }
  }

  lemma DigitsInParens(d: string, m: Mode)
    requires IsDigits(d) && !m.prevIdent
    ensures OnePass(d + ")", m) == if m.inTypeParams then d + ")" else "?)"
  {
    if m.inTypeParams {
      DigitsAreCopied(d, ")", m);
      SqlLiterals.CloserIsCopied(Track(m, d));
    } else {
      assert d[0] in d;
      assert Around("", NumberText(d), ")") == d + ")";
      OnePassAtSecret(NumberText(d), ")", m);
      SqlLiterals.CloserIsCopied(AfterLiteral(m));
      assert "?" + ")" == "?)";
    }
  }

  /** A number in parentheses after a word, white space or not between, is kept exactly
      when the word is one of these sixteen, whatever its case; after any other word,
      or none, it is redacted. */
  lemma NumbersAreKeptAfterTypesOnly(w: string, s: string, d: string)
    requires IsWord(w) && IsSpace(s) && IsDigits(d)
    ensures RedactSpec(w + s + "(" + (d + ")")) ==
      if Lower(w) in {"decimal", "dec", "numeric", "varchar", "nvarchar", "char", "character", "varying",
                      "bpchar", "text", "string", "timestamp", "datetime", "bit", "bitstring", "float"}
      then w + s + "(" + (d + ")") else w + s + "(" + "?)"
  {
    var frame := w + s + "(";
    TypeWordsAre(w);
    FrameIsPlain(w, s);
    OpenedByWord(w, s);
    DigitsInParens(d, Track(START, frame));
    SqlLiterals.RedactAfterPlain(frame, d + ")", OnePass(d + ")", Track(START, frame)));
  }

  lemma DigitsAfter(d: string, m: Mode)
    requires IsDigits(d) && !m.inTypeParams
    ensures OnePass(d, m) == if m.prevIdent then d else "?"
  {
    assert d + "" == d;
    if m.prevIdent {
      DigitsAreCopied(d, "", m);
    } else {
      assert d[0] in d;
      assert Around("", NumberText(d), "") == d;
      OnePassAtSecret(NumberText(d), "", m);
      assert "?" + "" == "?";
    }
  }

  lemma FlagsAfterFirst(c: char)
    requires !('0' <= c <= '9')
    ensures !Copied(START, c).inTypeParams
    ensures Copied(START, c).prevIdent == ('a' <= c <= 'z' || 'A' <= c <= 'Z' || c == '_')
  {
  }

  lemma FirstIsPlain(c: char, d: string)
    requires d != "" && '0' <= d[0] <= '9' && c != '\'' && !('0' <= c <= '9')
    ensures OnePass([c] + d, START) == [c] + OnePass(d, Copied(START, c))
  {
    var s := [c] + d;
    assert s[0] == c && s[1..] == d && s[1] == d[0];
    assert KindAt(s, START) == Plain;
    OnePassStep(s, START, 1, d);
  }

  /** A digit run right after a character is part of a name exactly after a letter or
      an underscore. */
  lemma DigitsBelongToNames(c: char, d: string)
    requires IsDigits(d) && c != '\'' && !('0' <= c <= '9')
    ensures RedactSpec([c] + d) ==
      [c] + if 'a' <= c <= 'z' || 'A' <= c <= 'Z' || c == '_' then d else "?"
  {
    assert d[0] in d;
    Fusion([c] + d, START);
    FirstIsPlain(c, d);
    FlagsAfterFirst(c);
    DigitsAfter(d, Copied(START, c));
  }

  // -------------------------------------------------- literals and comments

  /** What stands for a secret in the record. */
  function Mark(x: Secret): string {
    match x
    case QuotedText(_) => "?"
    case LineText(_) => ""
    case BlockText(_) => " "
    case NumberText(_) => "?"
  }

  predicate IsSecret(x: Secret) {
    match x
    case QuotedText(_) => true
    case LineText(b) => '\n' !in b
    case BlockText(b) => !ClosesBlock(b)
    case NumberText(r) => r != "" && '0' <= r[0] <= '9' && forall c | c in r :: '0' <= c <= '9' || c == '.'
  }

  lemma CommaThenSecret(w: string)
    requires IsWord(w)
    ensures SqlLiterals.Plain(w + ",", false)
    ensures var m := Track(START, w + ","); !m.prevIdent && !m.inTypeParams
  {
    SqlLiterals.WordIsPlain(w, false);
    SqlLiterals.InertIsPlain(",", false);
    SqlLiterals.PlainConcat(w, ",", false);
    FlagsAfter(w, ',');
    NoParens(w);
  }

  lemma {:induction false} NoParens(w: string)
    requires forall c | c in w :: IsIdentChar(c)
    ensures !InsideTypeParens(w)
    decreases |w|
  {
    if w == "" {
    } else {
      assert w[|w| - 1] in w;
      NoParens(w[..|w| - 1]);
    }
  }

  lemma NewlineThenWord(v: string, m: Mode)
    requires IsWord(v)
    ensures OnePass("\n" + v, m) == "\n" + v
  {
    SqlLiterals.WordIsPlain(v, false);
    SqlLiterals.InertIsPlain("\n", m.prevIdent);
    SqlLiterals.PlainConcat("\n", v, m.prevIdent);
    SqlLiterals.PlainIsCopied("\n" + v, "", m);
    assert "\n" + v + "" == "\n" + v;
  }

  lemma SecretBetween(x: Secret, v: string, m: Mode)
    requires IsWord(v) && IsSecret(x) && !m.prevIdent && !m.inTypeParams
    ensures OnePass(Around("", x, "\n" + v), m) == Mark(x) + ("\n" + v)
  {
    OnePassAtSecret(x, "\n" + v, m);
    NewlineThenWord(v, AfterLiteral(m));
    NewlineThenWord(v, Copied(m, ' '));
    NewlineThenWord(v, m);
    assert "" + ("\n" + v) == "\n" + v;
  }

  /** A string or a number becomes one question mark, a block comment one space and a
      line comment nothing, and what stands around them stays. */
  lemma SecretsAreMarked(w: string, x: Secret, v: string)
    requires IsWord(w) && IsWord(v) && IsSecret(x)
    ensures RedactSpec(w + "," + (Written(x) + ("\n" + v))) == w + "," + (Mark(x) + ("\n" + v))
  {
    var frame, tail := w + ",", "\n" + v;
    CommaThenSecret(w);
    SecretBetween(x, v, Track(START, frame));
    AroundNothing(x, tail);
    RedactedAfter(frame, Written(x) + tail, Mark(x) + tail);
  }

  lemma RedactedAfter(frame: string, body: string, shown: string)
    requires SqlLiterals.Plain(frame, false) && OnePass(body, Track(START, frame)) == shown
    ensures RedactSpec(frame + body) == frame + shown
  {
    SqlLiterals.RedactAfterPlain(frame, body, shown);
  }

  // ------------------------------------------------------- what never ends

  lemma {:induction false} UnclosedQuotedLen(v: string)
    ensures QuotedLen(Doubled(v, '\'')) == |Doubled(v, '\'')|
  {
    if v == "" {
    } else {
      var s, tail := Doubled(v, '\''), Doubled(v[1..], '\'');
      UnclosedQuotedLen(v[1..]);
      if v[0] == '\'' { assert s[2..] == tail; } else { assert s[1..] == tail; }
    }
  }

  lemma {:induction false} UnclosedBlockLen(b: string, prev: char)
    requires !ClosesBlock(b) && (prev == '*' ==> !StartsWithChar(b, '/'))
    ensures BlockLen(b, prev) == |b|
  {
    if b == "" {
    } else {
      forall i | 0 <= i < |b[1..]| ensures !StarSlashAt(b[1..], i) { assert !StarSlashAt(b, i + 1); }
      assert !StarSlashAt(b, 0);
      UnclosedBlockLen(b[1..], b[0]);
    }
  }

  lemma WholeToken(s: string, m: Mode)
    requires s != "" && TokenLen(s, m) == |s|
    ensures OnePass(s, m) == Shown(s, m)
  {
    assert s[|s|..] == "" && Shown(s, m) + "" == Shown(s, m);
  }

  lemma UnclosedShows(v: string, b: string, m: Mode)
    requires !ClosesBlock(b)
    ensures OnePass("'" + Doubled(v, '\''), m) == "?" && OnePass("/*" + b, m) == " "
  {
    var s, t := "'" + Doubled(v, '\''), "/*" + b;
    assert s[1..] == Doubled(v, '\'') && t[2..] == b;
    UnclosedQuotedLen(v);
    UnclosedBlockLen(b, '\0');
    WholeToken(s, m);
    WholeToken(t, m);
  }

  /** A string or block comment that is never closed hides all that follows it. */
  lemma UnclosedTextIsHidden(w: string, v: string, b: string)
    requires IsWord(w) && !ClosesBlock(b)
    ensures RedactSpec(w + "," + ("'" + Doubled(v, '\''))) == w + "," + "?"
    ensures RedactSpec(w + "," + ("/*" + b)) == w + "," + " "
  {
    CommaThenSecret(w);
    UnclosedShows(v, b, Track(START, w + ","));
    SqlLiterals.RedactAfterPlain(w + ",", "'" + Doubled(v, '\''), "?");
    SqlLiterals.RedactAfterPlain(w + ",", "/*" + b, " ");
  }
}
