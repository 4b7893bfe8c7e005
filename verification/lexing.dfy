/**
 The lexer on text that is not printed: gaps of blanks, ends of lines and comments, of which any is as good as any
 other, backslashes outside strings, and a parenthesis too many.
 */
module Lexing {
  import opened Basics
  import opened Forms
  import opened Printing

  predicate IsWhite(ch: char) {
    ch == ' ' || ch == '\t' || EndsLine(ch)
  }

  predicate EndsLine(ch: char) {
    ch == '\r' || ch == '\n'
  }

  // The comment at the front of s ends with the character at n.
  predicate CommentEnds(s: string, n: nat) {
    1 <= n < |s| && s[0] == ';' && EndsLine(s[n]) && forall k :: 1 <= k < n ==> !EndsLine(s[k])
  }

  // Blanks, ends of lines, and comments with the end of their line.
  ghost predicate IsGap(s: string)
    decreases |s|
  {
    || s == ""
    || (IsWhite(s[0]) && IsGap(s[1..]))
    || exists n: nat :: CommentEnds(s, n) && IsGap(s[n + 1..])
  }

  // ---------- comments ----------

  // Inside a comment nothing happens before the end of the line, whatever it holds.
  lemma {:induction false} InComment(l: Lexer, c: string)
    requires !l.failed && Balanced(l) && l.lex.IsCom() && forall k :: 0 <= k < |c| ==> !EndsLine(c[k])
    ensures var r := Run(l, c); !r.failed && Balanced(r) && r.lex.IsCom() && r.forms == l.forms && r.indent == l.indent
    decreases |c|
  {
    if c != "" {
      InComment(Step(l, c[0]), c[1..]);
    }
  }

  lemma CommentBegins(l: Lexer)
    requires Idle(l)
    ensures var r := Step(l, ';'); !r.failed && Balanced(r) && r.lex == ComIn && r.forms == Settled(l)
  {
    hide Classified, Add;
  }

  lemma CommentCloses(l: Lexer, ch: char)
    requires !l.failed && Balanced(l) && l.lex.IsCom() && EndsLine(ch)
    ensures var r := Step(l, ch); Idle(r) && r.lex == ComOut && r.forms == l.forms
  {
  }

  // A comment ends a token as a line end does, and leaves nothing behind.
  lemma CommentRun(l: Lexer, c: string, eol: char)
    requires Idle(l) && EndsLine(eol) && forall k :: 0 <= k < |c| ==> !EndsLine(c[k])
    ensures var r := Run(l, ";" + c + [eol]); Idle(r) && r.lex == ComOut && r.forms == Settled(l)
    ensures var r := Run(l, [eol]); Idle(r) && r.lex.IsFree() && r.forms == Settled(l)
  {
    hide Run, Step, Idle, Settled;
    BlankStep(l, eol);
    CommentBegins(l);
    RunOne(l, ';');
    var l1 := Run(l, ";");
    InComment(l1, c);
    var l2 := Run(l1, c);
    CommentCloses(l2, eol);
    RunOne(l2, eol);
    RunAppend(l, ";", c);
    RunAppend(l, ";" + c, [eol]);
  }

  // ---------- gaps ----------

  // A single blank or line end behind a token: the token could still be taken over again.
  predicate Lone(l: Lexer, g: string) {
    l.lex.IsTok() && |g| == 1
  }

  // In these states nothing is taken over again.
  predicate IsQuiet(lex: Lex) {
    lex.Space? || lex.ComOut?
  }

  // The lexer behind a gap.
  ghost predicate Behind(l: Lexer, g: string, r: Lexer) {
    && Idle(r) && r.forms == Settled(l)
    && if Lone(l, g) then r.lex == TokOut && r.tok == l.tok + g else IsQuiet(r.lex)
  }

  lemma WhiteStep(l: Lexer, ch: char)
    requires Idle(l) && IsWhite(ch)
    ensures var r := Step(l, ch);
            && Idle(r) && r.forms == Settled(l)
            && if l.lex.IsTok() then r.lex == TokOut && r.tok == l.tok + [ch] else r.lex == Space
  {
    hide Classified, Add;
  }

  lemma GapCases(g: string)
    requires IsGap(g) && g != ""
    ensures (IsWhite(g[0]) && IsGap(g[1..])) || exists n: nat :: CommentEnds(g, n) && IsGap(g[n + 1..])
  {
  }

  lemma CommentSplit(g: string, n: nat)
    requires CommentEnds(g, n)
    ensures g == (";" + g[1..n] + [g[n]]) + g[n + 1..] && EndsLine(g[n])
    ensures forall k :: 0 <= k < |g[1..n]| ==> !EndsLine(g[1..n][k])
  {
  }

  // A gap completes a token in front of it and leaves nothing behind.
  lemma {:induction false} GapRun(l: Lexer, g: string)
    requires Idle(l) && IsGap(g) && g != ""
    ensures Behind(l, g, Run(l, g))
    decreases |g|
  {
    hide Run, Step, Idle, Settled, EndsLine, IsWhite, IsGap;
    GapCases(g);
    if IsWhite(g[0]) && IsGap(g[1..]) {
      WhiteStep(l, g[0]);
      RunHead(l, g);
      var l1 := Step(l, g[0]);
      FreeSettled(l1);
      RunNothing(l1);
      if |g| > 1 {
        GapRun(l1, g[1..]);
      } else {
        assert g == [g[0]];
      }
    } else {
      var n: nat :| CommentEnds(g, n) && IsGap(g[n + 1..]);
      CommentSplit(g, n);
      var front := ";" + g[1..n] + [g[n]];
      CommentRun(l, g[1..n], g[n]);
      RunAppend(l, front, g[n + 1..]);
      var l1 := Run(l, front);
      FreeSettled(l1);
      RunNothing(l1);
      if g[n + 1..] != "" {
        GapRun(l1, g[n + 1..]);
      }
    }
  }

  // ---------- lexers that go on alike ----------

  // Outside tokens and strings, where the text of the last token does not matter.
  predicate NoToken(lex: Lex) {
    IsQuiet(lex) || lex.IsCom() || lex.IsSeq()
  }

  ghost predicate Alike(l: Lexer, m: Lexer) {
    && l.forms == m.forms && l.failed == m.failed
    && (l.failed ||
        (l.indent == m.indent &&
         (l == m || (NoToken(l.lex) && NoToken(m.lex) && (l.lex == m.lex || (IsQuiet(l.lex) && IsQuiet(m.lex)))))))
  }

  // Only tokens and strings take over their text.
  lemma FireSame(l: Lexer, m: Lexer, lex: Lex)
    requires l.forms == m.forms && l.indent == m.indent && !l.failed && !m.failed && lex != TokOut && lex != QstrOut
    ensures var k, n := Fire(l, lex, l.tok), Fire(m, lex, m.tok);
            k.forms == n.forms && k.indent == n.indent && k.failed == n.failed
  {
    hide Classified, Add, Close, Unescaped;
  }

  lemma AlikeNext(k: Lex, m: Lex, tok: string, tok': string, ch: char)
    requires NoToken(k) && NoToken(m) && (k == m || (IsQuiet(k) && IsQuiet(m)))
    ensures var lex, lex' := NextLex(k, ch), NextLex(m, ch);
            && !EndsToken(k, ch) && !EndsToken(m, ch) && lex.FoundVal() == lex'.FoundVal()
            && if lex == lex' then
                 NoToken(lex) || ((lex.QstrIn? || lex.TokIn?) && NextTok(k, tok, ch) == NextTok(m, tok', ch))
               else IsQuiet(lex) && IsQuiet(lex')
  {
  }

  lemma AlikeStep(l: Lexer, m: Lexer, ch: char)
    requires Alike(l, m)
    ensures Alike(Step(l, ch), Step(m, ch))
  {
    hide Fire, NextLex, NextTok, EndsToken;
    if !l.failed && l != m {
      AlikeNext(l.lex, m.lex, l.tok, m.tok, ch);
      var lex := NextLex(l.lex, ch);
      if lex != TokOut && lex != QstrOut {
        FireSame(l, m, lex);
      }
    }
  }

  lemma {:induction false} AlikeRun(l: Lexer, m: Lexer, s: string)
    requires Alike(l, m)
    ensures Alike(Run(l, s), Run(m, s))
    decreases |s|
  {
    hide Step, Alike;
    if s != "" {
      AlikeStep(l, m, s[0]);
      AlikeRun(Step(l, s[0]), Step(m, s[0]), s[1..]);
    }
  }

  // Between forms the next character decides alone, unless it is a backslash.
  lemma FreeNext(k: Lex, m: Lex, tok: string, tok': string, ch: char)
    requires k.IsFree() && m.IsFree() && ch != '\\'
    ensures var lex := NextLex(k, ch);
            && NextLex(m, ch) == lex && !EndsToken(k, ch) && !EndsToken(m, ch)
            && (NoToken(lex) || ((lex.QstrIn? || lex.TokIn?) && NextTok(k, tok, ch) == NextTok(m, tok', ch)))
  {
  }

  lemma FreeStep(l: Lexer, m: Lexer, ch: char)
    requires Idle(l) && Idle(m) && l.lex.IsFree() && m.lex.IsFree() && l.forms == m.forms && ch != '\\'
    ensures Alike(Step(l, ch), Step(m, ch))
  {
    hide Fire, NextLex, NextTok, EndsToken;
    FreeNext(l.lex, m.lex, l.tok, m.tok, ch);
    FireSame(l, m, NextLex(l.lex, ch));
  }

  // Before anything but a backslash one gap is as good as another.
  lemma GapsAlike(a: string, g: string, h: string, b: string)
    requires Idle(Run(START, a)) && IsGap(g) && IsGap(h) && g != "" && h != ""
    requires b == "" || b[0] != '\\'
    ensures Parsed(a + g + b) == Parsed(a + h + b)
  {
    hide Run, Step, Idle, IsGap, Alike, Settled;
    var l := Run(START, a);
    GapRun(l, g);
    GapRun(l, h);
    var lg, lh := Run(l, g), Run(l, h);
    RunAppend(START, a, g);
    RunAppend(START, a, h);
    RunAppend(START, a + g, b);
    RunAppend(START, a + h, b);
    if b == "" {
      RunNothing(lg);
      RunNothing(lh);
    } else {
      FreeStep(lg, lh, b[0]);
      RunHead(lg, b);
      RunHead(lh, b);
      AlikeRun(Step(lg, b[0]), Step(lh, b[0]), b[1..]);
      AlikeForms(Run(lg, b), Run(lh, b));
    }
  }

  lemma AlikeForms(l: Lexer, m: Lexer)
    requires Alike(l, m)
    ensures l.forms == m.forms
  {
  }

  // ---------- before a backslash ----------

  // Behind a gap, a backslash takes the last token over once more if the gap is a lone one.
  function Repeated(l: Lexer, g: string): Open {
    if Lone(l, g) then Add(Settled(l), Word(l.tok + g)) else Settled(l)
  }

  // A token with a blank behind it is a word.
  lemma BlankedIsWord(tok: string, ch: char)
    requires IsWhite(ch)
    ensures Classified(tok + [ch]) == Word(tok + [ch])
  {
    var s := tok + [ch];
    assert s[|s| - 1] == ch && !IsDigit(ch);
  }

  lemma BackslashStep(l: Lexer, g: string, r: Lexer)
    requires Behind(l, g, r) && (Lone(l, g) ==> IsWhite(g[0]))
    ensures var q := Step(r, '\\'); q.forms == Repeated(l, g)
  {
    hide Classified, Settled;
    if Lone(l, g) {
      assert g == [g[0]];
      BlankedIsWord(l.tok, g[0]);
    }
  }

  lemma LoneIsWhite(l: Lexer, g: string)
    requires IsGap(g) && g != ""
    ensures Lone(l, g) ==> IsWhite(g[0])
  {
  }

  // The root tells what the current form ends in.
  lemma {:induction false} RootAdded(forms: Open, x: Tree, y: Tree)
    requires x != y
    ensures Root(Add(forms, x)) != Root(Add(forms, y))
    decreases |forms|
  {
    var n := |forms| - 1;
    var last := forms[n];
    if n == 0 {
      assert (last + [x])[|last|] == x && (last + [y])[|last|] == y;
    } else {
      assert (last + [x])[|last|] == x && (last + [y])[|last|] == y;
      assert Add(forms, x)[..n] == forms[..n] == Add(forms, y)[..n];
      RootAdded(forms[..n], Seq(last + [x]), Seq(last + [y]));
    }
  }

  lemma RootMore(forms: Open, x: Tree)
    ensures Root(Add(forms, x)) != Root(forms)
  {
    var n := |forms| - 1;
    var last := forms[n];
    assert |last + [x]| != |last|;
    if n > 0 {
      assert Add(forms, x)[..n] == forms[..n];
      RootAdded(forms[..n], Seq(last + [x]), Seq(last));
    }
  }

  lemma ParsedBehind(a: string, g: string)
    requires Idle(Run(START, a)) && IsGap(g) && g != ""
    ensures Parsed(a + g + "\\") == Root(Repeated(Run(START, a), g))
  {
    hide Run, Step, Idle, IsGap, Settled, Behind, Lone, IsWhite, Repeated;
    var l := Run(START, a);
    GapRun(l, g);
    LoneIsWhite(l, g);
    BackslashStep(l, g, Run(l, g));
    RunOne(Run(l, g), '\\');
    RunAppend(START, a, g);
    RunAppend(START, a + g, "\\");
  }

  // Two different gaps are the same whatever follows exactly if neither is a single blank behind a token: before a
  // backslash, such a blank has the token taken over once more, with the blank in it.
  lemma GapsExactly(a: string, g: string, h: string)
    requires Idle(Run(START, a)) && IsGap(g) && IsGap(h) && g != "" && h != ""
    ensures var l := Run(START, a);
            (forall b: string :: Parsed(a + g + b) == Parsed(a + h + b)) <==> g == h || (!Lone(l, g) && !Lone(l, h))
  {
    hide Run, Step, Idle, IsGap, Settled, Root, Add;
    var l := Run(START, a);
    if !Lone(l, g) && !Lone(l, h) {
      forall b: string ensures Parsed(a + g + b) == Parsed(a + h + b) {
        QuietGaps(a, g, h, b);
      }
    } else if g != h {
      ParsedBehind(a, g);
      ParsedBehind(a, h);
      RootMore(Settled(l), Word(l.tok + g));
      RootMore(Settled(l), Word(l.tok + h));
      assert (l.tok + g)[|l.tok|..] == g && (l.tok + h)[|l.tok|..] == h;
      RootAdded(Settled(l), Word(l.tok + g), Word(l.tok + h));
      assert Parsed(a + g + "\\") != Parsed(a + h + "\\");
    }
  }

  lemma QuietGaps(a: string, g: string, h: string, b: string)
    requires Idle(Run(START, a)) && IsGap(g) && IsGap(h) && g != "" && h != ""
    requires !Lone(Run(START, a), g) && !Lone(Run(START, a), h)
    ensures Parsed(a + g + b) == Parsed(a + h + b)
  {
    hide Run, Step, IsGap, Settled;
    var l := Run(START, a);
    GapRun(l, g);
    GapRun(l, h);
    RunAppend(START, a, g);
    RunAppend(START, a, h);
    RunAppend(START, a + g, b);
    RunAppend(START, a + h, b);
    AlikeRun(Run(l, g), Run(l, h), b);
  }

  // Taking a comment out of a text, up to the end of its line, does not change the tree.
  lemma CommentDropped(a: string, c: string, eol: char, b: string)
    requires Idle(Run(START, a)) && EndsLine(eol) && forall k :: 0 <= k < |c| ==> !EndsLine(c[k])
    requires b == "" || b[0] != '\\'
    ensures Parsed(a + (";" + c + [eol]) + b) == Parsed(a + [eol] + b)
  {
    hide Run, Idle, Parsed, EndsLine;
    var g := ";" + c + [eol];
    var n := |c| + 1;
    assert CommentEnds(g, n) && g[n + 1..] == "";
    assert [eol][1..] == "";
    GapsAlike(a, g, [eol], b);
  }

  // ---------- errors ----------

  // Between forms a backslash does once more what the character in front of it did.
  lemma BackslashAgain(l: Lexer)
    requires Idle(l) && l.lex.IsFree()
    ensures var r := Step(l, '\\');
            match l.lex
            case SeqIn => !r.failed && r.forms == l.forms + [[]]
            case SeqOut =>
              if |l.forms| == 1 then r.failed && r.forms == l.forms else !r.failed && r.forms == Close(l.forms)
            case TokOut => !r.failed && r.forms == Add(l.forms, Classified(l.tok))
            case QstrOut => !r.failed && r.forms == Add(l.forms, Str(Unescaped(l.tok)))
            case _ => !r.failed && r.forms == l.forms
  {
    hide Classified, Add, Close, Unescaped;
  }

  // A parenthesis that closes nothing ends the text: what is behind it is not read.
  lemma RootCloseStops(a: string, b: string)
    requires Idle(Run(START, a)) && |Run(START, a).forms| == 1
    ensures Parsed(a + ")" + b) == Seq(Settled(Run(START, a))[0])
  {
    hide Run, Step, Settled, Idle;
    var l := Run(START, a);
    CloseFails(l);
    RunOne(l, ')');
    RunAppend(START, a, ")");
    RunAppend(START, a + ")", b);
    FailedStays(Step(l, ')'), b);
  }

  lemma CloseFails(l: Lexer)
    requires Idle(l) && |l.forms| == 1
    ensures var r := Step(l, ')'); r.failed && r.forms == Settled(l) && |r.forms| == 1
  {
    hide Classified, Close;
  }
}
