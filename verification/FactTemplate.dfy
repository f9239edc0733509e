/** `render_facts`: substituting named facts into a message template. */
module FactTemplate {

  type Facts = map<string, string>

  datatype Token = Text(text: string) | Hole(key: string)

  ghost predicate Free(s: string, c: char) {
    forall i | 0 <= i < |s| :: s[i] != c
  }

  datatype Halves = Whole | Halves(left: string, right: string)

  /** `s` around its first `c`. */
  function SplitOnce(s: string, c: char): (r: Halves)
    ensures r.Halves? ==> |r.left| + |r.right| < |s|
  {
    if s == "" then Whole
    else if s[0] == c then Halves("", s[1..])
    else
      var r := SplitOnce(s[1..], c);
      if r.Whole? then Whole else Halves([s[0]] + r.left, r.right)
  }

  lemma FreeCons(s: string, c: char)
    requires s != "" && s[0] != c && Free(s[1..], c)
    ensures Free(s, c)
  {
    forall i | 0 <= i < |s| ensures s[i] != c { if i > 0 { assert s[i] == s[1..][i - 1]; } }
  }

  lemma SplitCons(d: char, c: char, left: string, right: string)
    requires d != c && Free(left, c)
    ensures [d] + (left + ([c] + right)) == [d] + left + ([c] + right) && Free([d] + left, c)
  {
  }

  lemma {:induction false} SplitShape(s: string, c: char)
    ensures var r := SplitOnce(s, c);
      if r.Whole? then Free(s, c) else s == r.left + ([c] + r.right) && Free(r.left, c)
  {
    if s == "" {
    } else if s[0] == c {
      assert s == "" + ([c] + s[1..]);
    } else {
      SplitShape(s[1..], c);
      var r := SplitOnce(s[1..], c);
      if r.Whole? {
        FreeCons(s, c);
      } else {
        SplitCons(s[0], c, r.left, r.right);
        assert s == [s[0]] + s[1..];
      }
    }
  }

  lemma {:induction false} SplitWritten(left: string, c: char, right: string)
    requires Free(left, c)
    ensures SplitOnce(left + ([c] + right), c) == Halves(left, right)
  {
    var s := left + ([c] + right);
    if left == "" {
      assert s == [c] + right && s[1..] == right;
    } else {
      assert s[0] == left[0] && s[1..] == left[1..] + ([c] + right);
      SplitWritten(left[1..], c, right);
      assert left == [left[0]] + left[1..];
    }
  }

  lemma {:induction false} SplitFree(s: string, c: char)
    requires Free(s, c)
    ensures SplitOnce(s, c).Whole?
  {
    if s == "" {
    } else {
      forall i | 0 <= i < |s[1..]| ensures s[1..][i] != c { assert s[1..][i] == s[i + 1]; }
      SplitFree(s[1..], c);
    }
  }

  datatype Split = NoHole | HoleAt(before: string, key: string, after: string)

  function Braced(key: string): string {
    "{" + key + "}"
  }

  /** The first hole: from the leftmost `{` to the first `}` after it. */
  function Cut(t: string): (r: Split)
    ensures r.HoleAt? ==> |r.after| < |t|
  {
    var open := SplitOnce(t, '{');
    if open.Whole? then NoHole
    else
      var close := SplitOnce(open.right, '}');
      if close.Whole? then NoHole else HoleAt(open.left, close.left, close.right)
  }

  lemma CutShape(t: string)
    requires Cut(t).HoleAt?
    ensures var HoleAt(before, key, after) := Cut(t);
      t == before + (Braced(key) + after) && Free(before, '{') && Free(key, '}')
  {
    var HoleAt(before, key, after) := Cut(t);
    SplitShape(t, '{');
    SplitShape(SplitOnce(t, '{').right, '}');
    assert ['{'] + (key + (['}'] + after)) == Braced(key) + after;
  }

  /** The template as text and holes, in one pass from left to right. */
  function Tokenise(t: string): seq<Token>
    decreases |t|
  {
    var cut := Cut(t);
    if cut.NoHole? then [Text(t)]
    else [Text(cut.before), Hole(cut.key)] + Tokenise(cut.after)
  }

  function Filled(token: Token, facts: Facts): string {
    match token
    case Text(s) => s
    case Hole(k) => if k in facts then facts[k] else Braced(k)
  }

  function Fill(tokens: seq<Token>, facts: Facts): string {
    if tokens == [] then "" else Filled(tokens[0], facts) + Fill(tokens[1..], facts)
  }

  function Render(t: string, facts: Facts): string {
    Fill(Tokenise(t), facts)
  }

  lemma FillTwo(a: Token, b: Token, rest: seq<Token>, facts: Facts)
    ensures Fill([a, b] + rest, facts) == Filled(a, facts) + (Filled(b, facts) + Fill(rest, facts))
  {
    assert ([a, b] + rest)[1..] == [b] + rest;
    assert ([b] + rest)[1..] == rest;
  }

  lemma FillOne(a: Token, facts: Facts)
    ensures Fill([a], facts) == Filled(a, facts)
  {
    assert [a][1..] == [];
    assert Filled(a, facts) + "" == Filled(a, facts);
  }

  lemma RenderStep(t: string, facts: Facts)
    ensures Render(t, facts) == match Cut(t)
      case NoHole => t
      case HoleAt(before, key, after) => before + (Filled(Hole(key), facts) + Render(after, facts))
  {
    match Cut(t) {
      case NoHole => FillOne(Text(t), facts);
      case HoleAt(before, key, after) => FillTwo(Text(before), Hole(key), Tokenise(after), facts);
    }
  }

  lemma Assoc(a: string, b: string, c: string)
    ensures a + (b + c) == a + b + c
  {
  }

  /** Index of the first `c` in `s`, or `|s|`. */
  method Find(s: string, c: char) returns (n: nat)
    ensures n <= |s|
    ensures SplitOnce(s, c) == if n == |s| then Whole else Halves(s[..n], s[n + 1..])
  {
    n := 0;
    while n < |s| && s[n] != c
      invariant n <= |s| && Free(s[..n], c)
    {
      n := n + 1;
    }
    if n < |s| {
      assert s == s[..n] + ([c] + s[n + 1..]);
      SplitWritten(s[..n], c, s[n + 1..]);
    } else {
      assert s[..n] == s;
      SplitFree(s, c);
    }
  }

  lemma Reslice(t: string, right: string, open: nat, n: nat)
    requires open < |t| && right == t[open + 1..] && n < |right|
    ensures right[..n] == t[open + 1..open + 1 + n] && right[n + 1..] == t[open + 1 + n + 1..]
    ensures right[n] == t[open + 1 + n]
  {
  }

  lemma SliceWithHole(t: string, open: nat, close: nat)
    requires open < close < |t| && t[open] == '{' && t[close] == '}'
    ensures t[..close + 1] == t[..open] + Braced(t[open + 1..close])
  {
    assert t[open..close + 1] == Braced(t[open + 1..close]);
  }

  lemma SplitAt(s: string, c: char, n: nat)
    requires n < |s| && SplitOnce(s, c) == Halves(s[..n], s[n + 1..])
    ensures s[n] == c
  {
    SplitShape(s, c);
    assert (s[..n] + ([c] + s[n + 1..]))[n] == c;
  }

  lemma CutIs(t: string, right: string, before: string, key: string, after: string)
    requires SplitOnce(t, '{') == Halves(before, right) && SplitOnce(right, '}') == Halves(key, after)
    ensures Cut(t) == HoleAt(before, key, after)
  {
  }

  lemma CutIsNone(t: string)
    requires var open := SplitOnce(t, '{'); open.Whole? || SplitOnce(open.right, '}').Whole?
    ensures Cut(t).NoHole?
  {
  }

  /** The two searches of one turn of the loop: the first hole, if there is one. */
  method FindHole(rest: string) returns (found: bool, open: nat, close: nat)
    ensures found <==> Cut(rest).HoleAt?
    ensures found ==> open < close < |rest| && Cut(rest) == HoleAt(rest[..open], rest[open + 1..close], rest[close + 1..])
    ensures found ==> rest[..close + 1] == rest[..open] + Braced(rest[open + 1..close])
  {
    found, close := false, 0;
    open := Find(rest, '{');
    if open == |rest| {
      CutIsNone(rest);
      return;
    }
    var right := rest[open + 1..];
    var offset := Find(right, '}');
    if offset == |right| {
      CutIsNone(rest);
      return;
    }
    found, close := true, open + 1 + offset;
    SplitAt(rest, '{', open);
    SplitAt(right, '}', offset);
    Reslice(rest, right, open, offset);
    SliceWithHole(rest, open, close);
    CutIs(rest, right, rest[..open], right[..offset], right[offset + 1..]);
  }

  /** What one turn of the loop appends, and what it leaves. */
  lemma TurnIsRenderStep(t: string, before: string, key: string, after: string, facts: Facts, done: string)
    requires Cut(t) == HoleAt(before, key, after)
    ensures done + Render(t, facts) == done + before + Filled(Hole(key), facts) + Render(after, facts)
    ensures done + before + Braced(key) == done + (before + Braced(key))
  {
    RenderStep(t, facts);
    var filled, rest := Filled(Hole(key), facts), Render(after, facts);
    Assoc(done, before, filled + rest);
    Assoc(done + before, filled, rest);
    Assoc(done, before, Braced(key));
  }

  /** `render_facts`: `rest` shrinks at every turn, and is never the filled-in text. */
  method RenderFacts(template: string, facts: Facts) returns (out: string)
    ensures out == Render(template, facts)
  {
    out := "";
    var rest := template;
    ghost var all := Render(template, facts);
    assert out + Render(rest, facts) == all;
    while true
      invariant out + Render(rest, facts) == all
      decreases |rest|
    {
      var found, open, close := FindHole(rest);
      if !found { break; }
      var key := rest[open + 1..close];
      TurnIsRenderStep(rest, rest[..open], key, rest[close + 1..], facts, out);
      if key in facts {
        out := out + rest[..open];
        out := out + facts[key];
      } else {
        out := out + rest[..close + 1];
      }
      rest := rest[close + 1..];
    }
    RenderStep(rest, facts);
    out := out + rest;
  }

  // ------------------------------------------------- the tokeniser, by shape

  /** A written hole is found where it was written. */
  lemma CutWritten(before: string, key: string, after: string)
    requires Free(before, '{') && Free(key, '}')
    ensures Cut(before + (Braced(key) + after)) == HoleAt(before, key, after)
  {
    var right := key + (['}'] + after);
    assert Braced(key) + after == ['{'] + right;
    SplitWritten(before, '{', right);
    SplitWritten(key, '}', after);
  }

  /** Alternating text and holes: text before a hole has no `{`, a key has no
      `}`, and the last text has no hole. */
  ghost predicate WellTokenised(tokens: seq<Token>) {
    if |tokens| == 1 then tokens[0].Text? && HasNoHole(tokens[0].text)
    else
      && |tokens| > 2 && tokens[0].Text? && tokens[1].Hole?
      && Free(tokens[0].text, '{') && Free(tokens[1].key, '}') && WellTokenised(tokens[2..])
  }

  /** No `}` comes after a `{`. */
  ghost predicate HasNoHole(t: string) {
    forall i, j | 0 <= i < j < |t| :: t[i] == '{' ==> t[j] != '}'
  }

  lemma CutNone(t: string)
    ensures Cut(t).NoHole? <==> HasNoHole(t)
  {
    SplitShape(t, '{');
    var open := SplitOnce(t, '{');
    if open.Halves? {
      var n := |open.left|;
      SplitShape(open.right, '}');
      forall j | 0 <= j < |open.right| ensures t[n + 1 + j] == open.right[j] {}
      if Cut(t).HoleAt? {
        var k := |SplitOnce(open.right, '}').left|;
        assert t[n] == '{' && open.right[k] == '}' && t[n + 1 + k] == '}';
      } else {
        forall i, j | 0 <= i < j < |t| && t[i] == '{' ensures t[j] != '}' {
          assert t[n + 1 + (j - n - 1)] == open.right[j - n - 1];
        }
      }
    }
  }

  lemma TokeniseWritten(before: string, key: string, after: string)
    requires Free(before, '{') && Free(key, '}')
    ensures Tokenise(before + (Braced(key) + after)) == [Text(before), Hole(key)] + Tokenise(after)
  {
    CutWritten(before, key, after);
  }

  lemma InvertStep(before: string, key: string, rest: seq<Token>)
    requires Free(before, '{') && Free(key, '}') && Tokenise(Fill(rest, map[])) == rest
    ensures var tokens := [Text(before), Hole(key)] + rest;
      Tokenise(Fill(tokens, map[])) == tokens
  {
    TokeniseWritten(before, key, Fill(rest, map[]));
    FillTwo(Text(before), Hole(key), rest, map[]);
  }

  lemma InvertLast(t: string)
    requires HasNoHole(t)
    ensures Tokenise(Fill([Text(t)], map[])) == [Text(t)]
  {
    FillOne(Text(t), map[]);
    CutNone(t);
  }

  lemma {:induction false} TokeniseInverts(tokens: seq<Token>)
    requires WellTokenised(tokens)
    ensures Tokenise(Fill(tokens, map[])) == tokens
    decreases |tokens|
  {
    if |tokens| == 1 {
      assert tokens == [Text(tokens[0].text)];
      InvertLast(tokens[0].text);
    } else {
      var before, key, rest := tokens[0].text, tokens[1].key, tokens[2..];
      assert tokens == [Text(before), Hole(key)] + rest;
      TokeniseInverts(rest);
      InvertStep(before, key, rest);
    }
  }

  lemma {:induction false} TokeniseShape(t: string)
    ensures WellTokenised(Tokenise(t)) && Fill(Tokenise(t), map[]) == t
    decreases |t|
  {
    RenderStep(t, map[]);
    CutNone(t);
    if Cut(t).HoleAt? {
      CutShape(t);
      TokeniseShape(Cut(t).after);
      assert Tokenise(t)[2..] == Tokenise(Cut(t).after);
    }
  }

  /** A token sequence is the tokenisation of a template exactly when it is well
      shaped and writes that template back. */
  lemma TokeniserIsExact(t: string, tokens: seq<Token>)
    ensures tokens == Tokenise(t) <==> WellTokenised(tokens) && Fill(tokens, map[]) == t
  {
    TokeniseShape(t);
    if WellTokenised(tokens) { TokeniseInverts(tokens); }
  }

  // ----------------------------------------------------- rendering in stages

  lemma NoHoleAfterText(u: string, s: string)
    requires Free(u, '{') && HasNoHole(s)
    ensures HasNoHole(u + s)
  {
    forall i, j | 0 <= i < j < |u + s| && (u + s)[i] == '{' ensures (u + s)[j] != '}' {
      if i >= |u| { assert s[i - |u|] == '{' && s[j - |u|] == (u + s)[j]; }
    }
  }

  lemma RenderAfterText(u: string, s: string, facts: Facts)
    requires Free(u, '{')
    ensures Render(u + s, facts) == u + Render(s, facts)
  {
    RenderStep(u + s, facts);
    RenderStep(s, facts);
    match Cut(s) {
      case NoHole =>
        CutNone(s);
        NoHoleAfterText(u, s);
        CutNone(u + s);
      case HoleAt(before, key, after) =>
        CutShape(s);
        Assoc(u, before, Braced(key) + after);
        CutWritten(u + before, key, after);
        Assoc(u, before, Filled(Hole(key), facts) + Render(after, facts));
    }
  }

  lemma RenderAfterHole(key: string, s: string, facts: Facts)
    requires Free(key, '}')
    ensures Render(Braced(key) + s, facts) == Filled(Hole(key), facts) + Render(s, facts)
  {
    assert "" + (Braced(key) + s) == Braced(key) + s;
    CutWritten("", key, s);
    RenderStep(Braced(key) + s, facts);
    assert "" + (Filled(Hole(key), facts) + Render(s, facts)) == Filled(Hole(key), facts) + Render(s, facts);
  }

  /** Rendering with `f1` and then with `f2` is rendering once with both, `f1`
      preferred, provided no `f1` value opens a placeholder. */
  lemma {:induction false} RenderInStages(t: string, f1: Facts, f2: Facts)
    requires forall k | k in f1 :: Free(f1[k], '{')
    ensures Render(Render(t, f1), f2) == Render(t, f2 + f1)
    decreases |t|
  {
    RenderStep(t, f1);
    RenderStep(t, f2);
    RenderStep(t, f2 + f1);
    match Cut(t) {
      case NoHole =>
      case HoleAt(before, key, after) =>
        CutShape(t);
        var once, filled := Render(after, f1), Filled(Hole(key), f1);
        RenderInStages(after, f1, f2);
        RenderAfterText(before, filled + once, f2);
        if key in f1 {
          RenderAfterText(filled, once, f2);
        } else {
          RenderAfterHole(key, once, f2);
        }
    }
  }

  /** A placeholder is replaced by its fact, and one without a fact is left as written. */
  lemma HolesAreFilled(before: string, key: string, after: string, facts: Facts)
    requires Free(before, '{') && Free(key, '}')
    ensures Render(before + ("{" + key + "}" + after), facts) ==
      before + ((if key in facts then facts[key] else "{" + key + "}") + Render(after, facts))
    ensures HasNoHole(after) ==> Render(after, facts) == after
  {
    CutWritten(before, key, after);
    RenderStep(before + (Braced(key) + after), facts);
    CutNone(after);
    RenderStep(after, facts);
  }
}
