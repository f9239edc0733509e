/** Percent-encoding a URL into the quoted-string of a `WWW-Authenticate` header. */
module QuotedString {

  type Byte = n: int | 0 <= n < 256

  const PERCENT: Byte := 37
  const QUOTE: Byte := 34
  const BACKSLASH: Byte := 92

  /** Printable ASCII but the double quote and the backslash. */
  predicate IsSafe(b: Byte) {
    33 <= b <= 126 && b != QUOTE && b != BACKSLASH
  }

  /** `qdtext` (section 5.6.4 of RFC 9110): tab, space, visible ASCII but the
      double quote and the backslash, and bytes above 127. */
  predicate IsQdText(b: Byte) {
    b == 9 || b == 32 || b == 33 || 35 <= b <= 91 || 93 <= b <= 126 || b >= 128
  }

  function HexDigit(n: int): Byte
    requires 0 <= n < 16
  {
    if n < 10 then 48 + n else 55 + n
  }

  predicate IsHex(b: Byte) {
    48 <= b <= 57 || 65 <= b <= 70 || 97 <= b <= 102
  }

  function HexValue(b: Byte): (n: int)
    requires IsHex(b)
    ensures 0 <= n < 16
  {
    if b <= 57 then b - 48 else if b <= 70 then b - 55 else b - 87
  }

  function EncodeByte(b: Byte): seq<Byte> {
    if IsSafe(b) then [b] else [PERCENT, HexDigit(b / 16), HexDigit(b % 16)]
  }

  function Encode(url: seq<Byte>): seq<Byte> {
    if url == [] then [] else EncodeByte(url[0]) + Encode(url[1..])
  }

  lemma EncodeTurn(url: seq<Byte>, i: nat, done: seq<Byte>)
    requires i < |url|
    ensures done + Encode(url[i..]) == done + EncodeByte(url[i]) + Encode(url[i + 1..])
  {
    assert url[i..][1..] == url[i + 1..];
  }

  /** `encode_quoted`. */
  method EncodeQuoted(url: seq<Byte>) returns (out: seq<Byte>)
    ensures out == Encode(url)
  {
    out := [];
    ghost var all := Encode(url);
    assert out + Encode(url[0..]) == all;
    for i := 0 to |url|
      invariant out + Encode(url[i..]) == all
    {
      EncodeTurn(url, i, out);
      var byte := url[i];
      if 33 <= byte <= 126 && byte != QUOTE && byte != BACKSLASH {
        out := out + [byte];
      } else {
        out := out + [PERCENT, HexDigit(byte / 16), HexDigit(byte % 16)];
      }
    }
    assert Encode(url[|url|..]) == [];
  }

  /** A percent sign and two hexadecimal digits (section 2.1 of RFC 3986). */
  predicate IsEscape(s: seq<Byte>) {
    |s| >= 3 && s[0] == PERCENT && IsHex(s[1]) && IsHex(s[2])
  }

  function Decode(s: seq<Byte>): (r: seq<Byte>)
    ensures |r| <= |s|
  {
    if s == [] then []
    else if IsEscape(s) then [(16 * HexValue(s[1]) + HexValue(s[2])) as Byte] + Decode(s[3..])
    else [s[0]] + Decode(s[1..])
  }

  predicate HasEscape(s: seq<Byte>) {
    s != [] && (IsEscape(s) || HasEscape(s[1..]))
  }

  predicate AllSafe(s: seq<Byte>) {
    forall b | b in s :: IsSafe(b)
  }

  // ------------------------------------------------------------ the promises

  lemma SafeIsQdText(b: Byte)
    requires IsSafe(b)
    ensures IsQdText(b)
  {
  }

  lemma {:induction false} EncodingIsSafe(url: seq<Byte>)
    ensures AllSafe(Encode(url)) && |url| <= |Encode(url)| <= 3 * |url|
    ensures forall b | b in Encode(url) :: IsQdText(b)
    ensures Encode(url) == url <==> AllSafe(url)
  {
    forall b: Byte | IsSafe(b) ensures IsQdText(b) { SafeIsQdText(b); }
    if url == [] {
    } else {
      EncodingIsSafe(url[1..]);
      var e := Encode(url[1..]);
      assert url == [url[0]] + url[1..];
      if IsSafe(url[0]) {
        assert Encode(url) == [url[0]] + e;
        assert Encode(url)[1..] == e;
      } else {
        assert IsSafe(HexDigit(url[0] / 16)) && IsSafe(HexDigit(url[0] % 16));
        assert url[0] in url;
        assert Encode(url)[0] == PERCENT != url[0];
      }
    }
  }

  /** Encoding twice is encoding once. */
  lemma EncodingIsIdempotent(url: seq<Byte>)
    ensures Encode(Encode(url)) == Encode(url)
  {
    EncodingIsSafe(url);
    EncodingIsSafe(Encode(url));
  }

  lemma EncodedByteDecodes(b: Byte, rest: seq<Byte>)
    requires !IsSafe(b)
    ensures Decode(EncodeByte(b) + rest) == [b] + Decode(rest)
  {
    var s := EncodeByte(b) + rest;
    assert IsEscape(s) && s[3..] == rest;
    assert 16 * HexValue(s[1]) + HexValue(s[2]) == 16 * (b / 16) + b % 16 == b;
  }

  /** A legal byte at the head stays there. */
  lemma SafeHead(url: seq<Byte>)
    requires url != [] && IsSafe(url[0])
    ensures var e := Encode(url); e != [] && e[0] == url[0] && e[1..] == Encode(url[1..])
  {
    assert Encode(url) == [url[0]] + Encode(url[1..]);
  }

  /** A hexadecimal digit at the head is there before as after; nothing else becomes one. */
  lemma HexHead(url: seq<Byte>)
    ensures var e := Encode(url); (e != [] && IsHex(e[0])) <==> (url != [] && IsHex(url[0]))
  {
    if url != [] && IsSafe(url[0]) { SafeHead(url); }
  }

  lemma UnsafeIsEscaped(url: seq<Byte>)
    requires url != [] && !IsSafe(url[0])
    ensures IsEscape(Encode(url)) && !IsEscape(url)
  {
    var e := EncodeByte(url[0]) + Encode(url[1..]);
    assert e[0] == PERCENT && e[1] == HexDigit(url[0] / 16) && e[2] == HexDigit(url[0] % 16);
  }

  /** Whether text starts with an escape does not change when it is encoded. */
  lemma EscapeSurvives(url: seq<Byte>)
    ensures IsEscape(Encode(url)) <==> IsEscape(url) || (url != [] && !IsSafe(url[0]))
    ensures IsEscape(url) ==> Encode(url)[1..3] == url[1..3] && Encode(url)[3..] == Encode(url[3..])
  {
    if url == [] {
    } else if !IsSafe(url[0]) {
      UnsafeIsEscaped(url);
    } else {
      SafeHeadSurvives(url);
    }
  }

  lemma SafeHeadSurvives(url: seq<Byte>)
    requires url != [] && IsSafe(url[0])
    ensures IsEscape(Encode(url)) <==> IsEscape(url)
    ensures IsEscape(url) ==> Encode(url)[1..3] == url[1..3] && Encode(url)[3..] == Encode(url[3..])
  {
    if |url| > 1 && IsHex(url[1]) { EscapeGoesOn(url); } else { NoEscapeGoesOn(url); }
    SafeHead(url);
  }

  lemma NoEscapeGoesOn(url: seq<Byte>)
    requires url != [] && IsSafe(url[0]) && (|url| > 1 ==> !IsHex(url[1]))
    ensures !IsEscape(Encode(url))
  {
    SafeHead(url);
    HexHead(url[1..]);
    var e := Encode(url);
    assert |e| > 1 ==> e[1] == e[1..][0];
  }

  lemma EscapeGoesOn(url: seq<Byte>)
    requires |url| > 1 && IsSafe(url[0]) && IsHex(url[1])
    ensures var e := Encode(url);
      && |e| > 1 && e[1] == url[1] && (|e| > 2 && IsHex(e[2]) <==> |url| > 2 && IsHex(url[2]))
      && (|url| > 2 && IsHex(url[2]) ==> e[2] == url[2] && e[3..] == Encode(url[3..]))
  {
    SafeHead(url);
    assert url[1..][0] == url[1] && url[1..][1..] == url[2..];
    SafeHead(url[1..]);
    HexHead(url[2..]);
    assert Encode(url)[2..] == Encode(url[2..]);
    if |url| > 2 && IsHex(url[2]) {
      assert url[2..][0] == url[2] && url[2..][1..] == url[3..];
      SafeHead(url[2..]);
      assert Encode(url)[3..] == Encode(url[3..]);
    }
  }

  lemma EscapeDecodes(url: seq<Byte>)
    requires IsEscape(url) && Decode(Encode(url[3..])) == Decode(url[3..])
    ensures Decode(Encode(url)) == Decode(url)
  {
    EscapeSurvives(url);
    var e := Encode(url);
    assert e[1] == e[1..3][0] == url[1] && e[2] == e[1..3][1] == url[2];
  }

  /** Encoding changes nothing a URL decoder can see. */
  lemma {:induction false} EncodingKeepsMeaning(url: seq<Byte>)
    ensures Decode(Encode(url)) == Decode(url)
  {
    if url == [] {
    } else {
      EncodingKeepsMeaning(url[1..]);
      EscapeSurvives(url);
      if !IsSafe(url[0]) {
        EncodedByteDecodes(url[0], Encode(url[1..]));
      } else if IsEscape(url) {
        EncodingKeepsMeaning(url[3..]);
        EscapeDecodes(url);
      } else {
        assert Encode(url)[1..] == Encode(url[1..]);
      }
    }
  }

  lemma {:induction false} DecodeShrinks(s: seq<Byte>)
    ensures Decode(s) == s <==> !HasEscape(s)
  {
    if s == [] {
    } else {
      DecodeShrinks(s[1..]);
      assert s == [s[0]] + s[1..];
      if !IsEscape(s) { assert Decode(s)[1..] == Decode(s[1..]); }
    }
  }

  /** Percent-decoding recovers the URL exactly when it carries no escape of its
      own; in particular when it has no percent sign. */
  lemma {:induction false} EncodingRoundTrips(url: seq<Byte>)
    ensures Decode(Encode(url)) == url <==> !HasEscape(url)
    ensures PERCENT !in url ==> Decode(Encode(url)) == url
  {
    EncodingKeepsMeaning(url);
    DecodeShrinks(url);
    if PERCENT !in url { NoPercentNoEscape(url); }
  }

  lemma {:induction false} NoPercentNoEscape(s: seq<Byte>)
    requires PERCENT !in s
    ensures !HasEscape(s)
  {
    if s == [] {
    } else {
      assert s[0] in s;
      NoPercentNoEscape(s[1..]);
    }
  }

  // --------------------------------------------------------------- the header

  function Ascii(s: string): seq<Byte> {
    if s == "" then []
    else [if (s[0] as int) < 128 then s[0] as int as Byte else 63] + Ascii(s[1..])
  }

  /** One quoted parameter after `prefix`. */
  function Header(prefix: seq<Byte>, value: seq<Byte>): seq<Byte> {
    prefix + [QUOTE] + value + [QUOTE]
  }

  const CHALLENGE: seq<Byte> := Ascii("Bearer resource_metadata=")

  /** `challenge_header`. */
  function ChallengeHeader(metadataUrl: seq<Byte>): seq<Byte> {
    Header(CHALLENGE, Encode(metadataUrl))
  }

  datatype Quoted = Unterminated | Closed(value: seq<Byte>, rest: seq<Byte>)

  /** Read a quoted-string after its opening quote; a backslash quotes the next byte. */
  function ReadQuoted(s: seq<Byte>): Quoted {
    if s == [] then Unterminated
    else if s[0] == QUOTE then Closed([], s[1..])
    else if s[0] == BACKSLASH then
      if |s| == 1 then Unterminated else Prefixed(s[1], ReadQuoted(s[2..]))
    else Prefixed(s[0], ReadQuoted(s[1..]))
  }

  function Prefixed(b: Byte, q: Quoted): Quoted {
    if q.Closed? then Closed([b] + q.value, q.rest) else q
  }

  lemma {:induction false} SafeTextReadsBack(value: seq<Byte>, rest: seq<Byte>)
    requires AllSafe(value)
    ensures ReadQuoted(value + [QUOTE] + rest) == Closed(value, rest)
  {
    var s := value + [QUOTE] + rest;
    if value == [] {
      assert s[1..] == rest;
    } else {
      assert value[0] in value && s[1..] == value[1..] + [QUOTE] + rest;
      SafeTextReadsBack(value[1..], rest);
      assert value == [value[0]] + value[1..];
    }
  }

  /** Whatever the URL, an encoded parameter is one quoted-string, which ends
      where the header ends. */
  lemma HeaderIsOneParameter(prefix: seq<Byte>, url: seq<Byte>)
    ensures var h := Header(prefix, Encode(url));
      |h| > |prefix| && h[|prefix|] == QUOTE && ReadQuoted(h[|prefix| + 1..]) == Closed(Encode(url), [])
  {
    EncodingIsSafe(url);
    SafeTextReadsBack(Encode(url), []);
    assert Header(prefix, Encode(url))[|prefix| + 1..] == Encode(url) + [QUOTE] + [];
  }

  lemma ChallengeIsOneParameter(url: seq<Byte>)
    ensures var h := ChallengeHeader(url);
      |h| > |CHALLENGE| && h[|CHALLENGE|] == QUOTE && ReadQuoted(h[|CHALLENGE| + 1..]) == Closed(Encode(url), [])
  {
    HeaderIsOneParameter(CHALLENGE, url);
  }

  /** Exactly the URLs of printable ASCII without a double quote or a backslash are
      written as they are. */
  lemma LegalUrlsAreUnchanged(url: seq<Byte>)
    ensures Encode(url) == url <==> forall b | b in url :: 0x21 <= b <= 0x7E && b != 0x22 && b != 0x5C
  {
    EncodingIsSafe(url);
    assert AllSafe(url) <==> forall b | b in url :: 0x21 <= b <= 0x7E && b != 0x22 && b != 0x5C;
  }

  /** An illegal byte is written as a percent sign and its two digits in upper case. */
  lemma EscapesAreUpperCase(b: Byte)
    requires !(0x21 <= b <= 0x7E && b != 0x22 && b != 0x5C)
    ensures var digits := "0123456789ABCDEF";
      Encode([b]) == [0x25, digits[b / 16] as int as Byte, digits[b % 16] as int as Byte]
  {
    assert [b][1..] == [];
    assert Encode([b]) == EncodeByte(b);
  }

  /** The challenge, to the letter. */
  lemma ChallengeIsSpelled(url: seq<Byte>)
    ensures ChallengeHeader(url) == Ascii("Bearer resource_metadata=") + [0x22] + Encode(url) + [0x22]
  {
  }
}
