/** SQL text built by the node: literal escaping, identifier quoting, and the
    dataset load statement, together with what the redactor makes of it. */
module SqlLiterals {
  import opened Chars
  import opened Redaction
  import opened RedactionTheorems

  /** `esc`, and the URI escaping of `dataset_load_sql`. */
  function Esc(v: string): string {
    Doubled(v, '\'')
  }

  function QuoteIdent(name: string): string {
    "\"" + Doubled(name, '"') + "\""
  }

  const CREATE_SCHEMA := "CREATE SCHEMA IF NOT EXISTS "

  function CreateSchemaSql(schema: string): string {
    CREATE_SCHEMA + QuoteIdent(schema)
  }

  /** The reader function; anything but a named format is decided by the URI. */
  function Reader(sourceUri: string, format: string): string {
    var f := Lower(Trim(format));
    if f == "csv" then "read_csv_auto"
    else if f == "json" then "read_json_auto"
    else if f == "parquet" then "read_parquet"
    else
      var u := Lower(sourceUri);
      if EndsWith(u, ".csv") then "read_csv_auto"
      else if EndsWith(u, ".json") || EndsWith(u, ".ndjson") then "read_json_auto"
      else "read_parquet"
  }

  const CREATE_TABLE := "CREATE OR REPLACE TABLE "
  const AS_SELECT := " AS SELECT * FROM "

  function Frame(create: string, schema: string, table: string, asSelect: string, reader: string): string {
    create + (QuoteIdent(schema) + "." + QuoteIdent(table)) + asSelect + reader + "("
  }

  function DatasetLoadSql(schema: string, table: string, sourceUri: string, format: string): string {
    Frame(CREATE_TABLE, schema, table, AS_SELECT, Reader(sourceUri, format)) + "'" + Esc(sourceUri) + "'" + ")"
  }

  // --------------------------------------------------------- escape and lex

  /** The value a reader of SQL gives the text between quotes `q` whose opening
      quote precedes `s`. */
  function QuotedValue(s: string, q: char): string {
    if s == "" then ""
    else if s[0] != q then [s[0]] + QuotedValue(s[1..], q)
    else if |s| > 1 && s[1] == q then [q] + QuotedValue(s[2..], q)
    else ""
  }

  lemma {:induction false} DoubledReadsBack(v: string, q: char, post: string)
    requires !StartsWithChar(post, q)
    ensures QuotedValue(Doubled(v, q) + [q] + post, q) == v
  {
    var s := Doubled(v, q) + [q] + post;
    if v == "" {
      assert s == [q] + post;
    } else {
      var tail := Doubled(v[1..], q) + [q] + post;
      DoubledReadsBack(v[1..], q, post);
      if v[0] == q {
        assert s == [q, q] + tail && s[2..] == tail;
      } else {
        assert s == [v[0]] + tail && s[1..] == tail;
      }
      assert v == [v[0]] + v[1..];
    }
  }

  /** Reading back an escaped value returns it, and stops at its closing quote. */
  lemma EscapedReadsBack(v: string, post: string)
    requires !StartsWithChar(post, '\'')
    ensures QuotedValue(Esc(v) + "'" + post, '\'') == v
    ensures QuotedLen(Esc(v) + "'" + post) == |Esc(v)| + 1
  {
    DoubledReadsBack(v, '\'', post);
    QuotedLenOfDoubled(v, post);
  }

  /** Whatever a schema or table is called, its quoted name is read as that name. */
  lemma IdentifierReadsBack(name: string, post: string)
    requires !StartsWithChar(post, '"')
    ensures var sql := QuoteIdent(name) + post;
      sql[0] == '"' && QuotedValue(sql[1..], '"') == name
  {
    DoubledReadsBack(name, '"', post);
    assert (QuoteIdent(name) + post)[1..] == Doubled(name, '"') + ['"'] + post;
  }

  // ------------------------------------------------------- load and redact

  /** A bare identifier: not empty, no leading digit, identifier characters only. */
  predicate IsIdentifier(s: string) {
    s != "" && !IsDigit(s[0]) && forall c | c in s :: IsIdentChar(c)
  }

  predicate IsInert(c: char) {
    c != '\'' && c != '-' && c != '/' && !IsDigit(c)
  }

  /** Text the redactor copies: no quote, dash or slash, digits only inside words;
      `inWord` says whether an identifier character comes before. */
  predicate Plain(x: string, inWord: bool)
    decreases |x|
  {
    x == "" || ((IsInert(x[0]) || (IsDigit(x[0]) && inWord)) && Plain(x[1..], IsIdentChar(x[0])))
  }

  lemma {:induction false} PlainConcat(a: string, b: string, inWord: bool)
    requires Plain(a, inWord) && Plain(b, false)
    ensures Plain(a + b, inWord)
    decreases |a|
  {
    if a == "" {
      assert a + b == b;
    } else {
      assert (a + b)[0] == a[0] && (a + b)[1..] == a[1..] + b;
      PlainConcat(a[1..], b, IsIdentChar(a[0]));
    }
  }

  predicate IsInertText(x: string) {
    forall i | 0 <= i < |x| :: IsInert(x[i])
  }

  lemma {:induction false} InertIsPlain(x: string, inWord: bool)
    requires IsInertText(x)
    ensures Plain(x, inWord)
    decreases |x|
  {
    if x == "" {
    } else {
      InertIsPlain(x[1..], IsIdentChar(x[0]));
    }
  }

  lemma {:induction false} WordIsPlain(x: string, inWord: bool)
    requires forall c | c in x :: IsIdentChar(c)
    requires x != "" && IsDigit(x[0]) ==> inWord
    ensures Plain(x, inWord)
    decreases |x|
  {
    if x == "" {
    } else {
      assert x[0] in x;
      WordIsPlain(x[1..], true);
    }
  }

  lemma PlainHeadIsCopied(s: string, m: Mode)
    requires s != "" && (IsInert(s[0]) || (IsDigit(s[0]) && m.prevIdent))
    ensures OnePass(s, m) == [s[0]] + OnePass(s[1..], Copied(m, s[0]))
  {
    TrackOne(m, s[0]);
    assert KindAt(s, m) == RedactionTheorems.Plain;
  }

  /** Plain text is copied, and leaves the flags its characters set. */
  lemma {:induction false} PlainIsCopied(x: string, rest: string, m: Mode)
    requires Plain(x, m.prevIdent)
    ensures OnePass(x + rest, m) == x + OnePass(rest, Track(m, x))
    decreases |x|
  {
    if x == "" {
      assert x + rest == rest;
    } else {
      var s, m' := x + rest, Copied(m, x[0]);
      assert s[0] == x[0] && s[1..] == x[1..] + rest;
      PlainIsCopied(x[1..], rest, m');
      PlainHeadIsCopied(s, m);
      Rejoin([x[0]], x[1..], OnePass(rest, Track(m', x[1..])));
      assert x == [x[0]] + x[1..];
    }
  }

  lemma {:induction false} NothingDoubled(name: string)
    requires forall c | c in name :: IsIdentChar(c)
    ensures Doubled(name, '"') == name
  {
    if name == "" {
    } else {
      NothingDoubled(name[1..]);
      assert name[0] in name;
      assert name == [name[0]] + name[1..];
    }
  }

  lemma QuotedIdentIsPlain(name: string)
    requires IsIdentifier(name)
    ensures QuoteIdent(name) == "\"" + name + "\"" && Plain(QuoteIdent(name), false)
  {
    NothingDoubled(name);
    WordIsPlain(name, false);
    InertIsPlain("\"", false);
    PlainConcat("\"", name, false);
    PlainConcat("\"" + name, "\"", false);
  }

  lemma JoinedPlain(a: string, b: string, c: string, d: string, e: string, f: string, g: string)
    requires Plain(a, false) && Plain(b, false) && Plain(c, false) && Plain(d, false)
    requires Plain(e, false) && Plain(f, false) && Plain(g, false)
    ensures Plain(a + (b + c + d) + e + f + g, false)
  {
    PlainConcat(b, c, false);
    PlainConcat(b + c, d, false);
    PlainConcat(a, b + c + d, false);
    PlainConcat(a + (b + c + d), e, false);
    PlainConcat(a + (b + c + d) + e, f, false);
    PlainConcat(a + (b + c + d) + e + f, g, false);
  }

  lemma FixedTextIsInert()
    ensures IsInertText(CREATE_TABLE) && IsInertText(AS_SELECT) && IsInertText(CREATE_SCHEMA)
  {
  }

  lemma FrameIsPlain(create: string, schema: string, table: string, asSelect: string, reader: string)
    requires IsInertText(create) && IsInertText(asSelect)
    requires IsIdentifier(schema) && IsIdentifier(table) && IsIdentifier(reader)
    ensures Plain(Frame(create, schema, table, asSelect, reader), false)
  {
    InertIsPlain(create, false);
    InertIsPlain(asSelect, false);
    QuotedIdentIsPlain(schema);
    QuotedIdentIsPlain(table);
    WordIsPlain(reader, false);
    InertIsPlain(".", false);
    InertIsPlain("(", false);
    JoinedPlain(create, QuoteIdent(schema), ".", QuoteIdent(table), asSelect, reader, "(");
  }

  lemma ReaderIsIdentifier(uri: string, format: string)
    ensures IsIdentifier(Reader(uri, format))
  {
    assert IsIdentifier("read_csv_auto");
    assert IsIdentifier("read_json_auto");
    assert IsIdentifier("read_parquet");
  }

  lemma CloserIsCopied(m: Mode)
    ensures OnePass(")", m) == ")"
  {
    PlainHeadIsCopied(")", m);
    assert ")"[1..] == "";
  }

  lemma LiteralThenCloser(value: string, m: Mode)
    ensures OnePass(Around("", QuotedText(value), ")"), m) == "?)"
  {
    OnePassAtSecret(QuotedText(value), ")", m);
    CloserIsCopied(AfterLiteral(m));
    assert "?" + ")" == "?)";
  }

  lemma FrameThenLiteral(frame: string, value: string)
    ensures frame + "'" + Esc(value) + "'" + ")" == frame + Around("", QuotedText(value), ")")
  {
  }

  /** Plain text around one literal is redacted to itself around `?`. */
  lemma FramedLiteralIsRedacted(frame: string, value: string)
    requires Plain(frame, false)
    ensures RedactSpec(frame + "'" + Esc(value) + "'" + ")") == frame + "?)"
  {
    var tail := Around("", QuotedText(value), ")");
    FrameThenLiteral(frame, value);
    LiteralThenCloser(value, Track(START, frame));
    RedactAfterPlain(frame, tail, "?)");
  }

  lemma RedactAfterPlain(frame: string, tail: string, shown: string)
    requires Plain(frame, false) && OnePass(tail, Track(START, frame)) == shown
    ensures RedactSpec(frame + tail) == frame + shown
  {
    Fusion(frame + tail, START);
    PlainIsCopied(frame, tail, START);
  }

  /** A dataset load is recorded as its fixed frame with `?` for the URI, whatever
      the URI contains. */
  lemma LoadIsRedacted(schema: string, table: string, uri: string, format: string)
    requires IsIdentifier(schema) && IsIdentifier(table)
    ensures RedactSpec(DatasetLoadSql(schema, table, uri, format)) ==
            CREATE_TABLE + ("\"" + schema + "\"" + "." + ("\"" + table + "\"")) + AS_SELECT
            + Reader(uri, format) + "(" + "?)"
  {
    ReaderIsIdentifier(uri, format);
    FixedTextIsInert();
    FrameIsPlain(CREATE_TABLE, schema, table, AS_SELECT, Reader(uri, format));
    FramedLiteralIsRedacted(Frame(CREATE_TABLE, schema, table, AS_SELECT, Reader(uri, format)), uri);
    QuotedIdentIsPlain(schema);
    QuotedIdentIsPlain(table);
  }

  /** Plain statements are recorded as they are. */
  lemma PlainIsRecorded(sql: string)
    requires Plain(sql, false)
    ensures RedactSpec(sql) == sql
  {
    Fusion(sql, START);
    PlainIsCopied(sql, "", START);
    assert sql + "" == sql;
  }

  lemma InertThenIdentifier(text: string, name: string)
    requires IsInertText(text) && IsIdentifier(name)
    ensures RedactSpec(text + QuoteIdent(name)) == text + QuoteIdent(name)
  {
    InertIsPlain(text, false);
    QuotedIdentIsPlain(name);
    PlainConcat(text, QuoteIdent(name), false);
    PlainIsRecorded(text + QuoteIdent(name));
  }

  /** Creating a schema hides nothing from the record. */
  lemma SchemaStatementIsKept(schema: string)
    requires IsIdentifier(schema)
    ensures RedactSpec(CreateSchemaSql(schema)) == CreateSchemaSql(schema)
    ensures CreateSchemaSql(schema) == "CREATE SCHEMA IF NOT EXISTS " + ("\"" + schema + "\"")
  {
    FixedTextIsInert();
    QuotedIdentIsPlain(schema);
    InertThenIdentifier(CREATE_SCHEMA, schema);
  }

  /** A named format decides the reader, whatever its case and the white space around it;
      any other leaves it to the end of the URI, whatever its case. */
  lemma ReaderIsChosen(uri: string, format: string)
    ensures var f, u := Lower(Trim(format)), Lower(uri);
      && (Reader(uri, format) == "read_csv_auto" <==>
            f == "csv" || (f !in {"json", "parquet"} && EndsWith(u, ".csv")))
      && (Reader(uri, format) == "read_json_auto" <==>
            f == "json" || (f !in {"csv", "parquet"} && (EndsWith(u, ".json") || EndsWith(u, ".ndjson"))))
      && Reader(uri, format) in {"read_csv_auto", "read_json_auto", "read_parquet"}
  {
    var u := Lower(uri);
    EndsInLast(u, ".csv", 'v');
    EndsInLast(u, ".json", 'n');
    EndsInLast(u, ".ndjson", 'n');
  }

  lemma EndsInLast(s: string, suffix: string, last: char)
    requires suffix != "" && suffix[|suffix| - 1] == last
    ensures EndsWith(s, suffix) ==> s[|s| - 1] == last
  {
    if EndsWith(s, suffix) { assert s[|s| - |suffix|..][|suffix| - 1] == s[|s| - 1]; }
  }

  /** The fixed parts of the statements, to the letter. */
  lemma FixedTextIs()
    ensures CREATE_TABLE == "CREATE OR REPLACE TABLE " && AS_SELECT == " AS SELECT * FROM "
    ensures CREATE_SCHEMA == "CREATE SCHEMA IF NOT EXISTS "
  {
  }

  /** A load statement names its schema and table, and what it reads is the URI, to the
      letter, and nothing more. */
  lemma LoadReadsTheUri(schema: string, table: string, uri: string, format: string)
    ensures var rest := Esc(uri) + "'" + ")";
      && DatasetLoadSql(schema, table, uri, format) ==
         CREATE_TABLE + (QuoteIdent(schema) + "." + QuoteIdent(table)) + AS_SELECT + Reader(uri, format) + "(" + "'" + rest
      && QuotedValue(rest, '\'') == uri && rest[QuotedLen(rest)..] == ")"
  {
    EscapedReadsBack(uri, ")");
    LoadIsFramed(Frame(CREATE_TABLE, schema, table, AS_SELECT, Reader(uri, format)), Esc(uri));
  }

  lemma LoadIsFramed(frame: string, value: string)
    ensures frame + "'" + value + "'" + ")" == frame + "'" + (value + "'" + ")")
    ensures (value + "'" + ")")[|value| + 1..] == ")"
  {
  }
}
