/** What the redactor promises. The two passes fuse into one tokeniser of the
    original statement; through it, the output is shown not to depend on what
    a literal or comment says, and to be exactly the redactor's fixed points. */
module RedactionTheorems {
  import opened Chars
  import opened Redaction
  import opened Options

  // ------------------------------------------------ the one-pass tokeniser

  datatype Kind = Quoted | Line | Block | Number | Plain

  function KindAt(s: string, m: Mode): Kind
    requires s != ""
  {
    if s[0] == '\'' then Quoted
    else if OpensLineComment(s) then Line
    else if OpensBlockComment(s) then Block
    else if StartsNumber(s, m) then Number
    else Plain
  }

  /** Length of the token at the head of `s`. A line comment stops before its newline. */
  function TokenLen(s: string, m: Mode): (n: nat)
    requires s != ""
    ensures 1 <= n <= |s|
  {
    match KindAt(s, m)
    case Quoted => 1 + QuotedLen(s[1..])
    case Line => 1 + LineLen(s[1..])
    case Block => 2 + BlockLen(s[2..], '\0')
    case Number => 1 + RunLen(s[1..])
    case Plain => 1
  }

  function Shown(s: string, m: Mode): string
    requires s != ""
  {
    match KindAt(s, m)
    case Quoted => "?"
    case Line => ""
    case Block => " "
    case Number => "?"
    case Plain => [s[0]]
  }

  /** The flags after `x` has been emitted, character by character. */
  function Track(m: Mode, x: string): Mode
    decreases |x|
  {
    if x == "" then m else Track(Copied(m, x[0]), x[1..])
  }

  function OnePass(s: string, m: Mode): string
    decreases |s|
  {
    if s == "" then ""
    else Shown(s, m) + OnePass(s[TokenLen(s, m)..], Track(m, Shown(s, m)))
  }

  // ------------------------------------------------------- token locality

  lemma {:induction false} QuotedStops(s: string)
    ensures QuotedLen(s) < |s| ==> s[QuotedLen(s)] != '\''
  {
    if s != "" && s[0] != '\'' {
      QuotedStops(s[1..]);
    } else if |s| > 1 && s[1] == '\'' {
      QuotedStops(s[2..]);
    }
  }

  /** The length of a closed literal depends on its own text and on the next
      character not being a quote. */
  lemma {:induction false} QuotedLocal(s: string, t: string)
    requires var n := QuotedLen(s); n < |s| && n <= |t| && s[..n] == t[..n]
    requires |t| > QuotedLen(s) ==> t[QuotedLen(s)] != '\''
    ensures QuotedLen(t) == QuotedLen(s)
  {
    var n := QuotedLen(s);
    SameHead(s, t, n, 1);
    if s[0] != '\'' {
      QuotedLocal(s[1..], t[1..]);
    } else if |s| > 1 && s[1] == '\'' {
      SameHead(s, t, n, 2);
      QuotedLocal(s[2..], t[2..]);
    }
  }

  /** A common prefix of length `n`, read past its first `k` characters. */
  lemma SameHead(s: string, t: string, n: nat, k: nat)
    requires 0 < k <= n <= |s| && n <= |t| && s[..n] == t[..n]
    ensures s[k - 1] == t[k - 1] && s[k..][..n - k] == t[k..][..n - k]
  {
    assert s[..n][k - 1] == t[..n][k - 1];
    assert s[k..][..n - k] == s[..n][k..] && t[k..][..n - k] == t[..n][k..];
  }

  lemma {:induction false} RunLocal(t: string, n: nat)
    requires n <= |t| && forall i | 0 <= i < n :: IsRunChar(t[i])
    requires |t| > n ==> !IsRunChar(t[n])
    ensures RunLen(t) == n
  {
    if n == 0 {
    } else {
      RunLocal(t[1..], n - 1);
    }
  }

  lemma {:induction false} LineLocal(t: string, n: nat)
    requires n <= |t| && forall i | 0 <= i < n :: t[i] != '\n'
    requires n < |t| ==> t[n] == '\n'
    ensures LineLen(t) == n
  {
    if n == 0 {
    } else {
      LineLocal(t[1..], n - 1);
    }
  }

  lemma {:induction false} BlockLocal(s: string, t: string, prev: char)
    requires var n := BlockLen(s, prev); n < |s| && n <= |t| && s[..n] == t[..n]
    ensures BlockLen(t, prev) == BlockLen(s, prev)
  {
    var n := BlockLen(s, prev);
    SameHead(s, t, n, 1);
    if !(prev == '*' && s[0] == '/') {
      BlockLocal(s[1..], t[1..], s[0]);
    }
  }

  /** Characters the tokeniser cannot tell apart as a lookahead. */
  predicate Alike(c: char, d: char) {
    c == d || (IsDigit(c) && IsDigit(d))
  }

  predicate SamePrefix(s: string, t: string, p: nat) {
    p <= |s| && p <= |t| && forall i | 0 <= i < p :: s[i] == t[i]
  }

  /** A token that ends inside a common prefix is the same token in both texts. */
  lemma TokenLocal(s: string, t: string, m: Mode, p: nat)
    requires 0 < p < |s| && p < |t| && SamePrefix(s, t, p) && Alike(s[p], t[p])
    requires TokenLen(s, m) <= p
    ensures KindAt(t, m) == KindAt(s, m) && TokenLen(t, m) == TokenLen(s, m) && Shown(t, m) == Shown(s, m)
  {
    var n := TokenLen(s, m);
    assert Alike(s[1], t[1]) && Alike(s[n], t[n]);
    match KindAt(s, m) {
      case Quoted =>
        QuotedStops(s[1..]);
        assert s[1..][..n - 1] == t[1..][..n - 1];
        QuotedLocal(s[1..], t[1..]);
      case Line =>
        assert s[1..][n - 1] == '\n';
        forall i | 0 <= i < n - 1 ensures t[1..][i] != '\n' {
          assert s[1..][i] != '\n' && t[i + 1] == s[i + 1];
        }
        LineLocal(t[1..], n - 1);
      case Block =>
        assert s[2..][..n - 2] == t[2..][..n - 2];
        BlockLocal(s[2..], t[2..], '\0');
      case Number =>
        assert n - 1 < |s[1..]| && !IsRunChar(s[1..][n - 1]);
        forall i | 0 <= i < n - 1 ensures IsRunChar(t[1..][i]) {
          assert IsRunChar(s[1..][i]) && t[i + 1] == s[i + 1];
        }
        RunLocal(t[1..], n - 1);
      case Plain =>
    }
  }

  // ---------------------------------------------------------------- fusion

  lemma StripHead(s: string)
    ensures Strip(s) != "" ==> s != "" && (Strip(s)[0] == s[0] || Strip(s)[0] in {' ', '\n'})
  {
  }

  lemma Rejoin(a: string, b: string, c: string)
    ensures a + (b + c) == (a + b) + c
  {
  }

  lemma {:induction false} StripRun(run: string, rest: string)
    requires forall c | c in run :: IsRunChar(c)
    ensures Strip(run + rest) == run + Strip(rest)
  {
    if run == "" {
      assert run + rest == rest;
    } else {
      assert run[0] in run;
      Behead(run, rest);
      StripRun(run[1..], rest);
      StripOther(run + rest);
      Rejoin([run[0]], run[1..], Strip(rest));
      assert run == [run[0]] + run[1..];
    }
  }

  lemma Behead(a: string, b: string)
    requires a != ""
    ensures (a + b)[0] == a[0] && (a + b)[1..] == a[1..] + b
  {
  }

  lemma FusionQuoted(s: string, m: Mode)
    requires s != "" && s[0] == '\''
    ensures Redact(Strip(s), m) == "?" + Redact(Strip(s[TokenLen(s, m)..]), AfterLiteral(m))
  {
    var n := 1 + QuotedLen(s[1..]);
    var rest := Strip(s[n..]);
    var t := s[..n] + rest;
    assert Strip(s) == t;
    assert t[0] == '\'' && t[n..] == rest;
    if n < |s| {
      QuotedStops(s[1..]);
      StripHead(s[n..]);
      assert t[1..][..n - 1] == s[1..][..n - 1];
      QuotedLocal(s[1..], t[1..]);
    } else {
      assert t == s;
    }
  }

  /** The number at the head of `s`, and what follows it. */
  lemma RunAtHead(s: string, n: nat)
    requires s != "" && IsDigit(s[0]) && n == 1 + RunLen(s[1..])
    ensures n <= |s| && (forall c | c in s[..n] :: IsRunChar(c)) && (n < |s| ==> !IsRunChar(s[n]))
    ensures s == s[..n] + s[n..]
  {
    forall i | 0 <= i < n ensures IsRunChar(s[i]) {
      if i > 0 { assert IsRunChar(s[1..][i - 1]); }
    }
    if n < |s| { assert !IsRunChar(s[1..][n - 1]); }
  }

  lemma RunBefore(run: string, rest: string)
    requires run != "" && (forall c | c in run :: IsRunChar(c)) && (rest != "" ==> !IsRunChar(rest[0]))
    ensures 1 + RunLen((run + rest)[1..]) == |run| && (run + rest)[|run|..] == rest
  {
    var t := (run + rest)[1..];
    forall i | 0 <= i < |run| - 1 ensures IsRunChar(t[i]) { assert t[i] == run[i + 1]; }
    RunLocal(t, |run| - 1);
  }

  lemma FusionNumber(s: string, m: Mode)
    requires StartsNumber(s, m)
    ensures Redact(Strip(s), m) == "?" + Redact(Strip(s[TokenLen(s, m)..]), AfterLiteral(m))
  {
    var n := 1 + RunLen(s[1..]);
    RunAtHead(s, n);
    StripRun(s[..n], s[n..]);
    NoRunAfter(s[n..]);
    RedactRun(s[..n], Strip(s[n..]), m);
  }

  lemma NoRunAfter(s: string)
    requires s != "" ==> !IsRunChar(s[0])
    ensures Strip(s) != "" ==> !IsRunChar(Strip(s)[0])
  {
    StripHead(s);
  }

  lemma RedactRun(run: string, rest: string, m: Mode)
    requires StartsNumber(run, m) && (forall c | c in run :: IsRunChar(c)) && (rest != "" ==> !IsRunChar(rest[0]))
    ensures Redact(run + rest, m) == "?" + Redact(rest, AfterLiteral(m))
  {
    RunBefore(run, rest);
    assert Redact(run + rest, m) == "?" + Redact((run + rest)[1 + RunLen((run + rest)[1..])..], AfterLiteral(m));
  }

  lemma NewlineIsKept(s: string)
    requires s != "" && s[0] == '\n'
    ensures Strip(s) == "\n" + Strip(s[1..])
  {
    StripOther(s);
  }

  /** A line comment ends before its newline, or with the text. */
  lemma LineAtHead(s: string, n: nat)
    requires s != "" && n == 1 + LineLen(s[1..])
    ensures n <= |s| && (n < |s| ==> s[n..][0] == '\n' && s[n..][1..] == s[n + 1..])
  {
    if n < |s| { assert s[1..][n - 1] == '\n'; }
  }

  lemma FusionLine(s: string, m: Mode)
    requires OpensLineComment(s)
    ensures Strip(s) == Strip(s[TokenLen(s, m)..])
    ensures Redact(Strip(s), m) == Redact(Strip(s[TokenLen(s, m)..]), m)
  {
    var n := 1 + LineLen(s[1..]);
    LineAtHead(s, n);
    if n < |s| { NewlineIsKept(s[n..]); }
  }

  lemma FusionBlock(s: string, m: Mode)
    requires OpensBlockComment(s)
    ensures Redact(Strip(s), m) == " " + Redact(Strip(s[TokenLen(s, m)..]), Copied(m, ' '))
  {
    var rest := Strip(s[TokenLen(s, m)..]);
    var t := " " + rest;
    assert Strip(s) == t && t[1..] == rest;
  }

  lemma FusionPlain(s: string, m: Mode)
    requires s != "" && KindAt(s, m) == Plain
    ensures Redact(Strip(s), m) == [s[0]] + Redact(Strip(s[1..]), Copied(m, s[0]))
  {
    var rest := Strip(s[1..]);
    var t := [s[0]] + rest;
    assert Strip(s) == t && t[1..] == rest && t[0] == s[0];
  }

  /** Stripping, then collapsing, is one pass over the original statement. */
  lemma {:induction false} Fusion(s: string, m: Mode)
    ensures Redact(Strip(s), m) == OnePass(s, m)
    decreases |s|
  {
    if s == "" {
    } else {
      Fusion(s[TokenLen(s, m)..], Track(m, Shown(s, m)));
      match KindAt(s, m) {
        case Quoted => FusionQuoted(s, m);
        case Line => FusionLine(s, m);
        case Block => FusionBlock(s, m);
        case Number => FusionNumber(s, m);
        case Plain => FusionPlain(s, m);
      }
      TrackShown(s, m);
    }
  }

  /** The flags one token leaves behind. */
  lemma TrackShown(s: string, m: Mode)
    requires s != ""
    ensures Track(m, Shown(s, m)) == match KindAt(s, m)
      case Quoted => AfterLiteral(m)
      case Line => m
      case Block => Copied(m, ' ')
      case Number => AfterLiteral(m)
      case Plain => Copied(m, s[0])
  {
    if KindAt(s, m) != Line { TrackOne(m, Shown(s, m)[0]); }
    assert KindAt(s, m) != Line ==> Shown(s, m) == [Shown(s, m)[0]];
  }

  // --------------------------------------- the output hides what it hides

  /** The flags when the tokeniser stands at offset `p` of `s`, or `None` when
      `p` lies inside a token (a literal, a comment, a number). */
  function ModeAt(s: string, m: Mode, p: nat): Option<Mode>
    decreases p
  {
    if p == 0 then Some(m)
    else if s == "" || p < TokenLen(s, m) then None
    else ModeAt(s[TokenLen(s, m)..], Track(m, Shown(s, m)), p - TokenLen(s, m))
  }

  /** A piece of a statement whose text must not reach the output. */
  datatype Secret =
    | QuotedText(value: string)
    | LineText(body: string)
    | BlockText(body: string)
    | NumberText(run: string)

  function Written(x: Secret): string {
    match x
    case QuotedText(v) => "'" + Doubled(v, '\'') + "'"
    case LineText(b) => "--" + b
    case BlockText(b) => "/*" + b + "*/"
    case NumberText(r) => r
  }

  predicate StarSlashAt(s: string, i: int) {
    0 <= i < |s| - 1 && s[i] == '*' && s[i + 1] == '/'
  }

  predicate ClosesBlock(s: string) {
    exists i | 0 <= i < |s| :: StarSlashAt(s, i)
  }

  /** `x` is one complete token when `post` follows it and the flags are `m`. */
  predicate Complete(x: Secret, post: string, m: Mode) {
    match x
    case QuotedText(_) => !StartsWithChar(post, '\'')
    case LineText(b) => '\n' !in b && (post == "" || post[0] == '\n')
    case BlockText(b) => !ClosesBlock(b)
    case NumberText(r) =>
      && StartsNumber(r, m) && (forall c | c in r :: IsRunChar(c))
      && (post == "" || !IsRunChar(post[0]))
  }

  predicate SameKind(x: Secret, y: Secret) {
    && (x.QuotedText? <==> y.QuotedText?) && (x.LineText? <==> y.LineText?)
    && (x.BlockText? <==> y.BlockText?)
  }

  lemma {:induction false} QuotedLenOfDoubled(v: string, post: string)
    requires !StartsWithChar(post, '\'')
    ensures QuotedLen(Doubled(v, '\'') + "'" + post) == |Doubled(v, '\'')| + 1
  {
    var s := Doubled(v, '\'') + "'" + post;
    if v != "" {
      var tail := Doubled(v[1..], '\'') + "'" + post;
      QuotedLenOfDoubled(v[1..], post);
      if v[0] == '\'' {
        assert s == "''" + tail && s[2..] == tail;
      } else {
        assert s == [v[0]] + tail && s[1..] == tail;
      }
    } else {
      assert s == "'" + post;
    }
  }

  lemma {:induction false} BlockLenOfBody(body: string, prev: char, post: string)
    requires !ClosesBlock(body) && (prev == '*' ==> !StartsWithChar(body, '/'))
    ensures BlockLen(body + "*/" + post, prev) == |body| + 2
  {
    var s := body + "*/" + post;
    if body == "" {
      assert s[0] == '*' && s[1..][0] == '/';
    } else {
      assert s[1..] == body[1..] + "*/" + post;
      forall i | 0 <= i < |body[1..]| ensures !StarSlashAt(body[1..], i) {
        assert !StarSlashAt(body, i + 1);
      }
      assert !StarSlashAt(body, 0);
      BlockLenOfBody(body[1..], body[0], post);
    }
  }

  lemma QuotedIsOneToken(v: string, post: string, m: Mode)
    requires !StartsWithChar(post, '\'')
    ensures var w := Written(QuotedText(v));
      KindAt(w + post, m) == Quoted && TokenLen(w + post, m) == |w|
  {
    var s := Written(QuotedText(v)) + post;
    QuotedLenOfDoubled(v, post);
    assert s[0] == '\'' && s[1..] == Doubled(v, '\'') + "'" + post;
  }

  lemma LineIsOneToken(b: string, post: string, m: Mode)
    requires Complete(LineText(b), post, m)
    ensures var w := Written(LineText(b));
      KindAt(w + post, m) == Line && TokenLen(w + post, m) == |w|
  {
    var s := Written(LineText(b)) + post;
    assert s[0] == '-' && s[1] == '-';
    forall i | 0 <= i < |b| + 1 ensures s[1..][i] != '\n' {
      if i > 0 { assert s[1..][i] == b[i - 1]; }
    }
    LineLocal(s[1..], |b| + 1);
  }

  lemma BlockIsOneToken(b: string, post: string, m: Mode)
    requires !ClosesBlock(b)
    ensures var w := Written(BlockText(b));
      KindAt(w + post, m) == Block && TokenLen(w + post, m) == |w|
  {
    var s := Written(BlockText(b)) + post;
    assert s[0] == '/' && s[1] == '*' && s[2..] == b + "*/" + post;
    BlockLenOfBody(b, '\0', post);
  }

  lemma NumberIsOneToken(r: string, post: string, m: Mode)
    requires Complete(NumberText(r), post, m)
    ensures KindAt(r + post, m) == Number && TokenLen(r + post, m) == |r|
  {
    var s := r + post;
    forall i | 0 <= i < |r| - 1 ensures IsRunChar(s[1..][i]) { assert s[1..][i] == r[i + 1]; }
    RunLocal(s[1..], |r| - 1);
  }

  /** A complete secret is read as one token, whatever it says. */
  lemma SecretIsOneToken(x: Secret, post: string, m: Mode)
    requires Complete(x, post, m)
    ensures Written(x) != "" && TokenLen(Written(x) + post, m) == |Written(x)|
    ensures KindAt(Written(x) + post, m) ==
      match x case QuotedText(_) => Quoted case LineText(_) => Line
              case BlockText(_) => Block case NumberText(_) => Number
  {
    match x {
      case QuotedText(v) => QuotedIsOneToken(v, post, m);
      case LineText(b) => LineIsOneToken(b, post, m);
      case BlockText(b) => BlockIsOneToken(b, post, m);
      case NumberText(r) => NumberIsOneToken(r, post, m);
    }
  }

  lemma SecretHead(x: Secret, y: Secret, post: string, m: Mode)
    requires SameKind(x, y) && Complete(x, post, m) && Complete(y, post, m)
    ensures Written(x) != "" && Written(y) != "" && Alike(Written(x)[0], Written(y)[0])
  {
  }

  function Around(pre: string, x: Secret, post: string): string {
    pre + Written(x) + post
  }

  lemma SliceAround(pre: string, x: Secret, post: string, n: nat)
    requires n <= |pre|
    ensures Around(pre, x, post)[n..] == Around(pre[n..], x, post)
  {
  }

  /** Before the secret, the tokeniser cannot tell `x` from `y`. */
  lemma TokenBeforeSecret(pre: string, x: Secret, y: Secret, post: string, m: Mode, at: Mode)
    requires pre != "" && SameKind(x, y) && Complete(x, post, at) && Complete(y, post, at)
    requires TokenLen(Around(pre, x, post), m) <= |pre|
    ensures var s, t := Around(pre, x, post), Around(pre, y, post);
      KindAt(t, m) == KindAt(s, m) && TokenLen(t, m) == TokenLen(s, m) && Shown(t, m) == Shown(s, m)
  {
    var s, t := Around(pre, x, post), Around(pre, y, post);
    SecretHead(x, y, post, at);
    assert s[|pre|] == Written(x)[0] && t[|pre|] == Written(y)[0];
    forall i | 0 <= i < |pre| ensures s[i] == t[i] { assert s[i] == pre[i] == t[i]; }
    TokenLocal(s, t, m, |pre|);
  }

  lemma OnePassAtSecret(x: Secret, post: string, m: Mode)
    requires Complete(x, post, m)
    ensures OnePass(Around("", x, post), m) == match x
      case QuotedText(_) => "?" + OnePass(post, AfterLiteral(m))
      case LineText(_) => OnePass(post, m)
      case BlockText(_) => " " + OnePass(post, Copied(m, ' '))
      case NumberText(_) => "?" + OnePass(post, AfterLiteral(m))
  {
    SecretIsOneToken(x, post, m);
    AroundNothing(x, post);
    OnePassStep(Written(x) + post, m, |Written(x)|, post);
  }

  lemma AroundNothing(x: Secret, post: string)
    ensures Around("", x, post) == Written(x) + post && (Written(x) + post)[|Written(x)|..] == post
  {
  }

  /** One turn of the tokeniser. */
  lemma OnePassStep(s: string, m: Mode, n: nat, rest: string)
    requires s != "" && TokenLen(s, m) == n && s[n..] == rest
    ensures OnePass(s, m) == match KindAt(s, m)
      case Quoted => "?" + OnePass(rest, AfterLiteral(m))
      case Line => OnePass(rest, m)
      case Block => " " + OnePass(rest, Copied(m, ' '))
      case Number => "?" + OnePass(rest, AfterLiteral(m))
      case Plain => [s[0]] + OnePass(rest, Copied(m, s[0]))
  {
    if Shown(s, m) != "" { TrackOne(m, Shown(s, m)[0]); }
    assert Shown(s, m) != "" ==> Shown(s, m) == [Shown(s, m)[0]];
  }

  /** One turn of the tokeniser, of which the head and the rest are known. */
  lemma TurnFrom(s: string, m: Mode, n: nat, shown: string, rest: string, p: nat)
    requires s != "" && TokenLen(s, m) == n && Shown(s, m) == shown && s[n..] == rest && n <= p
    ensures OnePass(s, m) == shown + OnePass(rest, Track(m, shown))
    ensures ModeAt(s, m, p) == ModeAt(rest, Track(m, shown), p - n)
  {
  }

  lemma TokenEndsBefore(s: string, m: Mode, p: nat)
    requires s != "" && p > 0 && ModeAt(s, m, p).Some?
    ensures TokenLen(s, m) <= p
  {
  }

  lemma SameAtSecret(x: Secret, y: Secret, post: string, m: Mode)
    requires SameKind(x, y) && Complete(x, post, m) && Complete(y, post, m)
    ensures OnePass(Around("", y, post), m) == OnePass(Around("", x, post), m)
  {
    OnePassAtSecret(x, post, m);
    OnePassAtSecret(y, post, m);
  }

  /** One turn of the tokeniser before the secret. */
  lemma TurnBeforeSecret(pre: string, x: Secret, post: string, m: Mode, n: nat, shown: string)
    requires 0 < n <= |pre| && TokenLen(Around(pre, x, post), m) == n && Shown(Around(pre, x, post), m) == shown
    ensures OnePass(Around(pre, x, post), m) == shown + OnePass(Around(pre[n..], x, post), Track(m, shown))
    ensures ModeAt(Around(pre, x, post), m, |pre|) == ModeAt(Around(pre[n..], x, post), Track(m, shown), |pre| - n)
  {
    SliceAround(pre, x, post, n);
    TurnFrom(Around(pre, x, post), m, n, shown, Around(pre[n..], x, post), |pre|);
  }

  lemma SameBeforeSecret(pre: string, x: Secret, y: Secret, post: string, m: Mode, at: Mode) returns (n: nat, shown: string)
    requires pre != "" && SameKind(x, y) && Complete(x, post, at) && Complete(y, post, at)
    requires ModeAt(Around(pre, x, post), m, |pre|) == Some(at)
    ensures 0 < n <= |pre|
    ensures TokenLen(Around(pre, x, post), m) == n && Shown(Around(pre, x, post), m) == shown
    ensures TokenLen(Around(pre, y, post), m) == n && Shown(Around(pre, y, post), m) == shown
  {
    var s := Around(pre, x, post);
    TokenEndsBefore(s, m, |pre|);
    TokenBeforeSecret(pre, x, y, post, m, at);
    n, shown := TokenLen(s, m), Shown(s, m);
  }

  /** Replacing one secret by another of its kind changes neither the output nor
      the flags at which the tokeniser meets it. */
  lemma {:induction false} OnePassIgnores(pre: string, x: Secret, y: Secret, post: string, m: Mode, at: Mode)
    requires SameKind(x, y) && ModeAt(Around(pre, x, post), m, |pre|) == Some(at)
    requires Complete(x, post, at) && Complete(y, post, at)
    ensures ModeAt(Around(pre, y, post), m, |pre|) == Some(at)
    ensures OnePass(Around(pre, y, post), m) == OnePass(Around(pre, x, post), m)
    decreases |pre|
  {
    if pre == "" {
      SameAtSecret(x, y, post, m);
    } else {
      var n, shown := SameBeforeSecret(pre, x, y, post, m, at);
      TurnBeforeSecret(pre, x, post, m, n, shown);
      TurnBeforeSecret(pre, y, post, m, n, shown);
      OnePassIgnores(pre[n..], x, y, post, Track(m, shown), at);
    }
  }

  /** Redaction does not depend on what it hides: wherever the redactor meets `x`
      as a whole token, `y` can stand in its place. */
  lemma {:induction false} RedactionIgnoresSecrets(pre: string, x: Secret, y: Secret, post: string, at: Mode)
    requires SameKind(x, y) && ModeAt(Around(pre, x, post), START, |pre|) == Some(at)
    requires Complete(x, post, at) && Complete(y, post, at)
    ensures RedactSpec(Around(pre, x, post)) == RedactSpec(Around(pre, y, post))
  {
    OnePassIgnores(pre, x, y, post, START, at);
    Fusion(Around(pre, x, post), START);
    Fusion(Around(pre, y, post), START);
  }

  // ------------------------------------- clean outputs are the fixed points

  predicate CleanFrom(x: string, m: Mode)
    decreases |x|
  {
    x == "" ||
    (&& x[0] != '\'' && !OpensLineComment(x) && !OpensBlockComment(x)
     && !StartsNumber(x, m) && CleanFrom(x[1..], Copied(m, x[0])))
  }

  lemma OnePassHead(s: string, m: Mode)
    ensures OnePass(s, m) != "" ==>
      s != "" && (OnePass(s, m)[0] == s[0] || OnePass(s, m)[0] in {'?', ' ', '\n'})
  {
    if s != "" && KindAt(s, m) == Line && TokenLen(s, m) < |s| {
      assert s[TokenLen(s, m)..][0] == s[1..][TokenLen(s, m) - 1] == '\n';
    }
  }

  /** Clean text stays clean when a character comes before it that is no quote, starts
      no number and opens no comment with it. */
  lemma CleanCons(c: char, y: string, m: Mode)
    requires CleanFrom(y, Copied(m, c)) && c != '\'' && !(IsDigit(c) && !m.prevIdent && !m.inTypeParams)
    requires y != "" ==> !(c == '-' && y[0] == '-') && !(c == '/' && y[0] == '*')
    ensures CleanFrom([c] + y, m)
  {
    var x := [c] + y;
    assert x[0] == c && x[1..] == y && (|x| > 1 ==> x[1] == y[0]);
  }

  lemma CleanAfter(s: string, m: Mode, c: char, n: nat, m': Mode)
    requires s != "" && TokenLen(s, m) == n && OnePass(s, m) == [c] + OnePass(s[n..], m') && m' == Copied(m, c)
    requires CleanFrom(OnePass(s[n..], m'), m') && (c == '?' || c == ' ' || (KindAt(s, m) == Plain && c == s[0]))
    ensures CleanFrom(OnePass(s, m), m)
  {
    if c == s[0] { OnePassHead(s[n..], m'); }
    CleanCons(c, OnePass(s[n..], m'), m);
  }

  lemma {:induction false} OnePassIsClean(s: string, m: Mode)
    ensures CleanFrom(OnePass(s, m), m) && |OnePass(s, m)| <= |s|
    decreases |s|
  {
    if s == "" {
    } else {
      var n := TokenLen(s, m);
      var m' := Track(m, Shown(s, m));
      OnePassIsClean(s[n..], m');
      if KindAt(s, m) != Line {
        var c := Shown(s, m)[0];
        assert Shown(s, m) == [c];
        TrackOne(m, c);
        CleanAfter(s, m, c, n, m');
      } else {
        assert "" + OnePass(s[n..], m') == OnePass(s[n..], m');
      }
    }
  }

  lemma {:induction false} CleanIsFixed(x: string, m: Mode)
    requires CleanFrom(x, m)
    ensures OnePass(x, m) == x
    decreases |x|
  {
    if x == "" {
    } else {
      CleanIsFixed(x[1..], Copied(m, x[0]));
      assert Track(m, [x[0]]) == Copied(m, x[0]);
    }
  }

  // The flags, read off the text instead of computed along it.

  function LastWord(x: string): string {
    if x == "" || !IsIdentChar(x[|x| - 1]) then "" else LastWord(x[..|x| - 1]) + [x[|x| - 1]]
  }

  /** `x` ends in a listed type word, possibly followed by white space. */
  predicate EndsInTypeWord(x: string) {
    IsParameterisedType(LastWord(TrimEnd(x)))
  }

  /** The last parenthesis of `x` opens, and stands right after a listed type word. */
  predicate InsideTypeParens(x: string) {
    x != "" && var last, init := x[|x| - 1], x[..|x| - 1];
    if last == '(' then EndsInTypeWord(init) else last != ')' && InsideTypeParens(init)
  }

  predicate EndsInIdent(x: string) {
    x != "" && IsIdentChar(x[|x| - 1])
  }

  /** No quote, no comment opener, and every digit continues an identifier or
      lies inside the parentheses of a type. */
  ghost predicate Clean(x: string) {
    forall i | 0 <= i < |x| ::
      && x[i] != '\'' && !OpensLineComment(x[i..]) && !OpensBlockComment(x[i..])
      && (IsDigit(x[i]) ==> EndsInIdent(x[..i]) || InsideTypeParens(x[..i]))
  }

  lemma TrackOne(m: Mode, c: char)
    ensures Track(m, [c]) == Copied(m, c)
  {
    assert [c][1..] == "";
  }

  lemma {:induction false} TrackSnoc(m: Mode, x: string, c: char)
    ensures Track(m, x + [c]) == Copied(Track(m, x), c)
    decreases |x|
  {
    if x == "" {
      assert (x + [c])[1..] == "";
    } else {
      assert (x + [c])[1..] == x[1..] + [c];
      TrackSnoc(Copied(m, x[0]), x[1..], c);
    }
  }

  lemma NoEmptyTypeWord()
    ensures !IsParameterisedType("")
  {
    NotListed("", PARAMETERISED_TYPES);
  }

  lemma {:induction false} NotListed(word: string, types: seq<string>)
    requires forall t | t in types :: |t| != |word|
    ensures !Listed(word, types)
  {
    if types == [] {
    } else {
      assert |Lower(word)| == |word| && |Lower(types[0])| == |types[0]|;
      NotListed(word, types[1..]);
    }
  }

  /** The flags of `m` say what `x` ends in. */
  predicate Describes(m: Mode, x: string) {
    && m.prevIdent == EndsInIdent(x) && m.word == LastWord(x) && m.inTypeParams == InsideTypeParens(x)
    && (m.word == "" ==> m.typeWordPending == EndsInTypeWord(x))
  }

  lemma Snoc(x: string, c: char)
    ensures var y := x + [c]; y != "" && y[..|y| - 1] == x && y[|y| - 1] == c
  {
  }

  lemma TypeWordSnoc(m: Mode, x: string, c: char)
    requires Describes(m, x)
    ensures LastWord(x + [c]) == if IsIdentChar(c) then LastWord(x) + [c] else ""
    ensures EndsInTypeWord(x) == if m.word != "" then IsParameterisedType(m.word) else m.typeWordPending
    ensures !IsIdentChar(c) ==> EndsInTypeWord(x + [c]) == (IsWhitespace(c) && EndsInTypeWord(x))
  {
    var y := x + [c];
    Snoc(x, c);
    if m.word != "" { assert TrimEnd(x) == x; }
    if IsWhitespace(c) {
      assert TrimEnd(y) == TrimEnd(x);
    } else if !IsIdentChar(c) {
      assert TrimEnd(y) == y && LastWord(y) == "";
      NoEmptyTypeWord();
    }
  }

  lemma InsideTypeParensSnoc(x: string, c: char)
    ensures InsideTypeParens(x + [c]) ==
      if c == '(' then EndsInTypeWord(x) else c != ')' && InsideTypeParens(x)
  {
    Snoc(x, c);
  }

  lemma DescribesSnoc(m: Mode, x: string, c: char)
    requires Describes(m, x)
    ensures Describes(Copied(m, c), x + [c])
  {
    Snoc(x, c);
    TypeWordSnoc(m, x, c);
    var pending := if m.word != "" then IsParameterisedType(m.word) else m.typeWordPending;
    assert pending == EndsInTypeWord(x);
    InsideTypeParensSnoc(x, c);
  }

  lemma {:induction false} TrackMeaning(x: string)
    ensures Describes(Track(START, x), x)
    decreases |x|
  {
    if x == "" {
      NoEmptyTypeWord();
    } else {
      var init, c := x[..|x| - 1], x[|x| - 1];
      assert x == init + [c];
      TrackSnoc(START, init, c);
      TrackMeaning(init);
      DescribesSnoc(Track(START, init), init, c);
    }
  }

  lemma {:induction false} CleanFromMeaning(pre: string, x: string)
    ensures CleanFrom(x, Track(START, pre)) <==>
      forall i | |pre| <= i < |pre + x| ::
        && (pre + x)[i] != '\'' && !OpensLineComment((pre + x)[i..]) && !OpensBlockComment((pre + x)[i..])
        && (IsDigit((pre + x)[i]) ==> EndsInIdent((pre + x)[..i]) || InsideTypeParens((pre + x)[..i]))
    decreases |x|
  {
    if x == "" {
    } else {
      var s, p := pre + x, |pre|;
      assert s == (pre + [x[0]]) + x[1..];
      assert s[p] == x[0] && s[p..] == x && s[..p] == pre;
      TrackSnoc(START, pre, x[0]);
      TrackMeaning(pre);
      CleanFromMeaning(pre + [x[0]], x[1..]);
    }
  }

  lemma CleanMeans(x: string)
    ensures CleanFrom(x, START) <==> Clean(x)
  {
    assert "" + x == x;
    CleanFromMeaning("", x);
  }

  lemma CleanIsKept(s: string)
    ensures Clean(s) ==> RedactSpec(s) == s
  {
    Fusion(s, START);
    CleanMeans(s);
    if Clean(s) { CleanIsFixed(s, START); }
  }

  lemma OutputIsClean(s: string)
    ensures Clean(RedactSpec(s)) && |RedactSpec(s)| <= |s|
  {
    Fusion(s, START);
    OnePassIsClean(s, START);
    CleanMeans(RedactSpec(s));
  }

  /** The redactor's output is clean; the clean texts are exactly those it
      leaves alone; so redacting twice is redacting once. */
  lemma RedactionIsClean(s: string)
    ensures Clean(RedactSpec(s)) && |RedactSpec(s)| <= |s|
    ensures RedactSpec(s) == s <==> Clean(s)
    ensures RedactSpec(RedactSpec(s)) == RedactSpec(s)
  {
    var x := RedactSpec(s);
    OutputIsClean(s);
    CleanIsKept(x);
    CleanIsKept(s);
  }
}
