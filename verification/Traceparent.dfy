/** W3C Trace Context: parsing, formatting and propagating `traceparent`. */
module Traceparent {
  import opened Chars
  import opened Options

  datatype TraceContext = TraceContext(traceId: string, spanId: string, sampled: bool)

  predicate IsLowerHexChar(c: char) {
    IsDigit(c) || 'a' <= c <= 'f'
  }

  /** `is_lower_hex`. `str::len` counts bytes and `|s|` characters; they differ only
      for a text with a character outside ASCII, which is refused either way. */
  predicate IsLowerHex(s: string, len: nat) {
    |s| == len && forall i | 0 <= i < |s| :: IsLowerHexChar(s[i])
  }

  predicate AllZero(s: string) {
    forall i | 0 <= i < |s| :: s[i] == '0'
  }

  /** An id as the specification wants it: hex of the right length, not all zero. */
  predicate IsId(s: string, len: nat) {
    IsLowerHex(s, len) && !AllZero(s)
  }

  predicate WellFormed(c: TraceContext) {
    IsId(c.traceId, 32) && IsId(c.spanId, 16)
  }

  /** What `hex32` returns: a version 4 UUID without its dashes. */
  predicate IsUuid(u: string) {
    IsLowerHex(u, 32) && u[12] == '4'
  }

  function SpanOf(uuid: string): string
    requires IsUuid(uuid)
  {
    uuid[..16]
  }

  /** `TraceContext::new`, from the two UUIDs it draws. */
  function New(traceUuid: string, spanUuid: string): (c: TraceContext)
    requires IsUuid(traceUuid) && IsUuid(spanUuid)
    ensures WellFormed(c) && c.sampled
  {
    assert traceUuid[12] != '0' && SpanOf(spanUuid)[12] != '0';
    TraceContext(traceUuid, SpanOf(spanUuid), true)
  }

  /** `str::split('-')`. */
  function Fields(s: string): (r: seq<string>)
    ensures |r| >= 1
  {
    if s == "" then [""]
    else
      var rest := Fields(s[1..]);
      if s[0] == '-' then [""] + rest else [[s[0]] + rest[0]] + rest[1..]
  }

  predicate SampledBit(flags: string)
    requires IsLowerHex(flags, 2)
  {
    var d := flags[1];
    (if IsDigit(d) then d as int - '0' as int else d as int - 'a' as int + 10) % 2 == 1
  }

  /** `TraceContext::parse`, with the UUID it draws for our own span. */
  function Parse(header: string, uuid: string): Option<TraceContext>
    requires IsUuid(uuid)
  {
    var parts := Fields(Trim(header));
    if |parts| < 4 then None
    else
      var version, traceId, parentId, flags := parts[0], parts[1], parts[2], parts[3];
      if version == "00" && |parts| > 4 then None
      else if !IsLowerHex(version, 2) || version == "ff" then None
      else if !IsLowerHex(traceId, 32) || AllZero(traceId) then None
      else if !IsLowerHex(parentId, 16) || AllZero(parentId) then None
      else if !IsLowerHex(flags, 2) then None
      else Some(TraceContext(traceId, SpanOf(uuid), SampledBit(flags)))
  }

  /** `TraceContext::inbound`. */
  function Inbound(header: Option<string>, uuid: string, traceUuid: string, spanUuid: string): (c: TraceContext)
    requires IsUuid(uuid) && IsUuid(traceUuid) && IsUuid(spanUuid)
  {
    if header.Some? && Parse(header.value, uuid).Some? then Parse(header.value, uuid).value
    else New(traceUuid, spanUuid)
  }

  /** `TraceContext::traceparent`. */
  function Format(c: TraceContext): string {
    "00-" + c.traceId + "-" + c.spanId + "-" + (if c.sampled then "01" else "00")
  }

  // -------------------------------------------------------- the grammar

  /** A `traceparent` value (section 3.2 of W3C Trace Context) by position:
      version, trace id, parent id and flags, and more only after a higher version. */
  predicate IsTraceparent(s: string) {
    && |s| >= 55 && s[2] == '-' && s[35] == '-' && s[52] == '-'
    && IsLowerHex(s[..2], 2) && s[..2] != "ff"
    && IsId(s[3..35], 32) && IsId(s[36..52], 16) && IsLowerHex(s[53..55], 2)
    && (|s| == 55 || (s[55] == '-' && s[..2] != "00"))
  }

  predicate NoDash(s: string) {
    forall i | 0 <= i < |s| :: s[i] != '-'
  }

  lemma {:induction false} FieldsOfOne(s: string)
    requires NoDash(s)
    ensures Fields(s) == [s]
  {
    if s == "" {
    } else {
      FieldsOfOne(s[1..]);
      assert s == [s[0]] + s[1..];
    }
  }

  lemma {:induction false} FieldsCons(head: string, tail: string)
    requires NoDash(head)
    ensures Fields(head + "-" + tail) == [head] + Fields(tail)
  {
    var s := head + "-" + tail;
    if head == "" {
      assert s[0] == '-' && s[1..] == tail;
    } else {
      assert s[0] == head[0] && s[1..] == head[1..] + "-" + tail;
      FieldsCons(head[1..], tail);
      assert head == [head[0]] + head[1..];
    }
  }

  /** The first field, and the text after it. */
  lemma {:induction false} FieldsHead(s: string)
    ensures var f, n := Fields(s), |Fields(s)[0]|;
      && NoDash(f[0]) && n <= |s| && f[0] == s[..n]
      && (|f| == 1 <==> n == |s|)
      && (|f| > 1 ==> s[n] == '-' && Fields(s[n + 1..]) == f[1..])
  {
    if s != "" && s[0] != '-' {
      FieldsHead(s[1..]);
      var n := |Fields(s[1..])[0]|;
      assert s[..n + 1] == [s[0]] + s[1..][..n];
      if n < |s[1..]| { assert s[1..][n + 1..] == s[n + 2..]; }
    }
  }

  lemma HexHasNoDash(s: string, len: nat)
    requires IsLowerHex(s, len)
    ensures NoDash(s)
  {
  }

  /** A dash at `b` ends the field that starts at `a`. */
  lemma FieldEndsAt(s: string, a: nat, b: nat)
    requires a <= b < |s| && s[b] == '-' && NoDash(s[a..b])
    ensures Fields(s[a..]) == [s[a..b]] + Fields(s[b + 1..])
  {
    assert s[a..] == s[a..b] + "-" + s[b + 1..];
    FieldsCons(s[a..b], s[b + 1..]);
  }

  /** The field that starts at `a` has length `n`: what follows it. */
  lemma FieldLiesAt(s: string, a: nat, n: nat, f: seq<string>)
    requires a <= |s| && f == Fields(s[a..]) && |f[0]| == n
    ensures a + n <= |s| && f[0] == s[a..a + n] && (|f| == 1 <==> a + n == |s|)
    ensures |f| > 1 ==> s[a + n] == '-' && Fields(s[a + n + 1..]) == f[1..]
  {
    var t := s[a..];
    FieldsHead(t);
    assert t[..n] == s[a..a + n];
    if |f| > 1 {
      assert t[n] == s[a + n];
      assert t[n + 1..] == s[a + n + 1..];
    }
  }

  lemma FlagsAndMore(s: string)
    requires |s| >= 55 && NoDash(s[53..55]) && (|s| == 55 || s[55] == '-')
    ensures Fields(s[53..]) == [s[53..55]] + if |s| == 55 then [] else Fields(s[56..])
  {
    if |s| == 55 {
      FieldsOfOne(s[53..55]);
      assert s[53..] == s[53..55];
    } else {
      FieldEndsAt(s, 53, 55);
    }
  }

  lemma FieldsOfTraceparent(s: string)
    requires IsTraceparent(s)
    ensures Fields(s) == [s[..2]] + ([s[3..35]] + ([s[36..52]] + Fields(s[53..])))
    ensures Fields(s[53..]) == [s[53..55]] + if |s| == 55 then [] else Fields(s[56..])
  {
    HexHasNoDash(s[..2], 2);
    HexHasNoDash(s[3..35], 32);
    HexHasNoDash(s[36..52], 16);
    HexHasNoDash(s[53..55], 2);
    assert s[0..] == s && s[0..2] == s[..2];
    FieldEndsAt(s, 0, 2);
    FieldEndsAt(s, 3, 35);
    FieldEndsAt(s, 36, 52);
    FlagsAndMore(s);
  }

  lemma LastFieldsArePlaced(s: string, f: seq<string>)
    requires |s| >= 36 && f == Fields(s[36..]) && |f| >= 2 && |f[0]| == 16 && |f[1]| == 2
    ensures |s| >= 55 && s[52] == '-' && f[0] == s[36..52] && f[1] == s[53..55]
    ensures (|f| == 2 <==> |s| == 55) && (|f| > 2 ==> s[55] == '-')
  {
    FieldLiesAt(s, 36, 16, f);
    FieldLiesAt(s, 53, 2, f[1..]);
  }

  /** Where the fields of a header with four good ones must lie. */
  lemma FieldsArePlaced(s: string)
    requires var f := Fields(s);
      |f| >= 4 && |f[0]| == 2 && |f[1]| == 32 && |f[2]| == 16 && |f[3]| == 2
    ensures |s| >= 55 && s[2] == '-' && s[35] == '-' && s[52] == '-'
    ensures var f := Fields(s);
      && f[0] == s[..2] && f[1] == s[3..35] && f[2] == s[36..52] && f[3] == s[53..55]
      && (|f| == 4 <==> |s| == 55) && (|f| > 4 ==> s[55] == '-')
  {
    var f := Fields(s);
    assert s[0..] == s && s[0..2] == s[..2];
    FieldLiesAt(s, 0, 2, f);
    FieldLiesAt(s, 3, 32, f[1..]);
    LastFieldsArePlaced(s, f[1..][1..]);
  }

  lemma SampledBitMeans(flags: string)
    requires IsLowerHex(flags, 2)
    ensures SampledBit(flags) <==> flags[1] in {'1', '3', '5', '7', '9', 'b', 'd', 'f'}
  {
    assert IsLowerHexChar(flags[1]);
  }

  /** `parse` accepts exactly the grammar, keeps the caller's trace id and sampled
      bit, and never presents the caller's span as ours. */
  lemma ParseAcceptsTheGrammar(header: string, uuid: string)
    requires IsUuid(uuid)
    ensures var s := Trim(header);
      && (Parse(header, uuid).Some? <==> IsTraceparent(s))
      && (IsTraceparent(s) ==>
            && Parse(header, uuid).value == TraceContext(s[3..35], uuid[..16], SampledBit(s[53..55]))
            && (Parse(header, uuid).value.sampled <==> s[54] in {'1', '3', '5', '7', '9', 'b', 'd', 'f'}))
  {
    var s := Trim(header);
    if IsTraceparent(s) {
      FieldsOfTraceparent(s);
      SampledBitMeans(s[53..55]);
    } else if Parse(header, uuid).Some? {
      FieldsArePlaced(s);
    }
  }

  /** Whatever arrives, the context used is well formed. */
  lemma ContextsAreWellFormed(header: Option<string>, uuid: string, traceUuid: string, spanUuid: string)
    requires IsUuid(uuid) && IsUuid(traceUuid) && IsUuid(spanUuid)
    ensures WellFormed(Inbound(header, uuid, traceUuid, spanUuid))
  {
    assert SpanOf(uuid)[12] == '4';
    if header.Some? { ParseAcceptsTheGrammar(header.value, uuid); }
  }

  // ------------------------------------------------------------- hop by hop

  lemma FormatIsTraceparent(c: TraceContext)
    requires WellFormed(c)
    ensures var s := Format(c);
      && Trim(s) == s && IsTraceparent(s) && s[3..35] == c.traceId
      && IsLowerHex(s[53..55], 2) && SampledBit(s[53..55]) == c.sampled
  {
    var flags := if c.sampled then "01" else "00";
    var s := Format(c);
    assert s[..2] == "00" && s[3..35] == c.traceId && s[36..52] == c.spanId && s[53..55] == flags;
    assert !IsWhitespace(s[0]) && !IsWhitespace(s[54]) && |s| == 55;
    assert s[2] == '-' && s[35] == '-' && s[52] == '-';
  }

  /** The context at the far end of a chain of hops, each of which formats the
      context it was given and parses the header with a span of its own. */
  function AfterHops(c: TraceContext, uuids: seq<string>): Option<TraceContext>
    requires forall i | 0 <= i < |uuids| :: IsUuid(uuids[i])
    decreases |uuids|
  {
    if uuids == [] then Some(c)
    else
      var next := Parse(Format(c), uuids[0]);
      if next.None? then None else AfterHops(next.value, uuids[1..])
  }

  /** However long the chain, no hop refuses the header, and the trace id and the
      sampled bit arrive as they left. */
  lemma {:induction false} HopsKeepTheTrace(c: TraceContext, uuids: seq<string>)
    requires WellFormed(c) && forall i | 0 <= i < |uuids| :: IsUuid(uuids[i])
    ensures AfterHops(c, uuids).Some?
    ensures var d := AfterHops(c, uuids).value;
      && WellFormed(d) && d.traceId == c.traceId && d.sampled == c.sampled
      && d.spanId == if uuids == [] then c.spanId else uuids[|uuids| - 1][..16]
    decreases |uuids|
  {
    if uuids == [] {
    } else {
      var uuid := uuids[0];
      FormatIsTraceparent(c);
      ParseAcceptsTheGrammar(Format(c), uuid);
      assert SpanOf(uuid)[12] == '4';
      HopsKeepTheTrace(Parse(Format(c), uuid).value, uuids[1..]);
    }
  }

  /** A request with any header or none: the trace it is given, the caller's own when
      the header is a `traceparent`, reaches the end of every chain of hops, with its
      sampled bit. */
  lemma InboundTracesArrive(header: Option<string>, uuid: string, traceUuid: string, spanUuid: string, uuids: seq<string>)
    requires IsUuid(uuid) && IsUuid(traceUuid) && IsUuid(spanUuid)
    requires forall i | 0 <= i < |uuids| :: IsUuid(uuids[i])
    ensures AfterHops(Inbound(header, uuid, traceUuid, spanUuid), uuids).Some?
    ensures var d := AfterHops(Inbound(header, uuid, traceUuid, spanUuid), uuids).value;
      && WellFormed(d)
      && if header.Some? && IsTraceparent(Trim(header.value))
         then d.traceId == Trim(header.value)[3..35] && d.sampled == SampledBit(Trim(header.value)[53..55])
         else d.traceId == traceUuid && d.sampled && (uuids == [] ==> d.spanId == spanUuid[..16])
  {
    ContextsAreWellFormed(header, uuid, traceUuid, spanUuid);
    HopsKeepTheTrace(Inbound(header, uuid, traceUuid, spanUuid), uuids);
    if header.Some? { ParseAcceptsTheGrammar(header.value, uuid); }
  }

  /** What is sent is a header of version 00: 55 characters, whose flags are 01 or 00. */
  lemma HeadersAreVersionZero(c: TraceContext)
    requires WellFormed(c)
    ensures var s := Format(c);
      && |s| == 55 && IsTraceparent(s) && s[..3] == ['0', '0', '-'] && s[3..35] == c.traceId && s[36..52] == c.spanId
      && s[53] == '0' && s[54] == if c.sampled then '1' else '0'
  {
    FormatIsTraceparent(c);
    var s := Format(c);
    assert s[36..52] == c.spanId && s[..3] == ['0', '0', '-'];
  }

  /** White space around a header is nothing to it. */
  lemma PaddingIsIgnored(a: string, s: string, b: string, uuid: string)
    requires IsUuid(uuid) && IsSpace(a) && IsSpace(b) && s != "" && !IsWhitespace(s[0]) && !IsWhitespace(s[|s| - 1])
    ensures Parse(a + (s + b), uuid) == Parse(s, uuid)
    ensures Parse(a + (s + b), uuid).Some? <==> IsTraceparent(s)
  {
    TrimDropsPadding(a, s, b);
    TrimDropsPadding("", s, "");
    assert "" + (s + "") == s;
    ParseAcceptsTheGrammar(s, uuid);
  }
}
