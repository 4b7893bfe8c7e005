/**
 What the lexer makes can be printed: reformatting a text keeps its tree.
 */
module Reformatting {
  import opened Basics
  import opened Forms
  import opened Printing

  // A tree as the lexer makes it from a text without backslashes and NUL; floating-point literals may occur.
  ghost predicate Lexed(t: Tree) {
    match t
    case Int(n) => INT64_MIN <= n <= INT64_MAX
    case Float(_) => true
    case Word(w) => IsWord(w)
    case Str(s) => '\0' !in s && '\\' !in s
    case Seq(items) => forall i :: 0 <= i < |items| ==> Lexed(items[i])
    case _ => true
  }

  lemma {:induction false} LexedPrintable(t: Tree)
    requires Lexed(t) && !HasFloat(t)
    ensures Printable(t)
  {
    if t.Seq? {
      forall i | 0 <= i < |t.items| ensures Printable(t.items[i]) {
        LexedPrintable(t.items[i]);
      }
    }
  }

  ghost predicate AllLexed(items: seq<Tree>) {
    forall i :: 0 <= i < |items| ==> Lexed(items[i])
  }

  ghost predicate FormsLexed(forms: Open) {
    forall i :: 0 <= i < |forms| ==> AllLexed(forms[i])
  }

  // Without backslash and NUL.
  ghost predicate Ordinary(s: string) {
    '\\' !in s && '\0' !in s
  }

  ghost predicate Tidy(l: Lexer) {
    && FormsLexed(l.forms)
    && (l.lex.IsTok() ==> IsToken(l.tok) && Ordinary(l.tok))
    && (l.lex.IsQstr() ==> Ordinary(l.tok))
  }

  lemma TokenLexed(w: string)
    requires IsToken(w) && Ordinary(w)
    ensures Lexed(Classified(w))
  {
  }

  lemma {:induction false} OrdinaryUnescaped(s: string)
    requires Ordinary(s)
    ensures Unescaped(s) == s
  {
    if s != "" {
      OrdinaryUnescaped(s[1..]);
      assert s == [s[0]] + s[1..];
    }
  }

  lemma AddLexed(forms: Open, t: Tree)
    requires FormsLexed(forms) && Lexed(t)
    ensures FormsLexed(Add(forms, t))
  {
    hide Lexed;
    assert AllLexed(forms[|forms| - 1]);
  }

  lemma CloseLexed(forms: Open)
    requires FormsLexed(forms) && |forms| > 1
    ensures FormsLexed(Close(forms))
  {
    hide Add;
    var front := forms[..|forms| - 1];
    assert AllLexed(forms[|forms| - 1]);
    assert FormsLexed(front);
    AddLexed(front, Seq(forms[|forms| - 1]));
  }

  lemma FireLexed(l: Lexer, lex: Lex, tok: string)
    requires FormsLexed(l.forms)
    requires lex == TokOut ==> IsToken(tok) && Ordinary(tok)
    requires lex == QstrOut ==> Ordinary(tok)
    ensures FormsLexed(Fire(l, lex, tok).forms)
  {
    hide Add, Close, Classified, Unescaped, IsToken, Ordinary;
    match lex
    case TokOut =>
      TokenLexed(tok);
      AddLexed(l.forms, Classified(tok));
    case QstrOut =>
      OrdinaryUnescaped(tok);
      OrdinaryString(tok);
      AddLexed(l.forms, Str(tok));
    case SeqOut =>
      if |l.forms| > 1 {
        CloseLexed(l.forms);
      }
    case SeqIn =>
      assert AllLexed([]);
    case _ =>
  }

  lemma OrdinaryString(s: string)
    requires Ordinary(s)
    ensures Lexed(Str(s))
  {
  }

  // A transition without a backslash ends tokens and strings only behind their characters.
  lemma Transitions(lex: Lex, tok: string, ch: char)
    requires ch != '\\' && ch != '\0'
    requires lex.IsTok() ==> IsToken(tok) && Ordinary(tok)
    requires lex.IsQstr() ==> Ordinary(tok)
    ensures var (l2, t2) := (NextLex(lex, ch), NextTok(lex, tok, ch));
            && (l2 == TokOut ==> lex.IsTok()) && (l2 == QstrOut ==> lex.IsQstr())
            && (l2.IsTok() ==> IsToken(t2) && Ordinary(t2)) && (l2.IsQstr() ==> Ordinary(t2))
  {
  }

  lemma StepTidy(l: Lexer, ch: char)
    requires Tidy(l) && ch != '\\' && ch != '\0'
    ensures FormsLexed(Step(l, ch).forms) && (!Step(l, ch).failed ==> Tidy(Step(l, ch)))
  {
    hide Fire, FormsLexed, IsToken, Ordinary, NextLex, NextTok;
    Transitions(l.lex, l.tok, ch);
    var l1 := if EndsToken(l.lex, ch) then Fire(l, TokOut, l.tok) else l;
    if EndsToken(l.lex, ch) {
      FireLexed(l, TokOut, l.tok);
    }
    FireLexed(l1, NextLex(l.lex, ch), l.tok);
  }

  lemma {:induction false} RunTidy(l: Lexer, s: string)
    requires FormsLexed(l.forms) && (l.failed || Tidy(l)) && Ordinary(s)
    ensures FormsLexed(Run(l, s).forms)
    decreases |s|
  {
    hide Step, Tidy, FormsLexed;
    if s != "" {
      if l.failed {
        assert Step(l, s[0]) == l by { StepFailed(l, s[0]); }
      } else {
        StepTidy(l, s[0]);
      }
      RunTidy(Step(l, s[0]), s[1..]);
    }
  }

  lemma StepFailed(l: Lexer, ch: char)
    requires l.failed
    ensures Step(l, ch) == l
  {
  }

  lemma {:induction false} RootLexed(forms: Open)
    requires FormsLexed(forms)
    ensures Lexed(Root(forms)) && Root(forms).Seq?
    decreases |forms|
  {
    hide Close;
    if |forms| == 1 {
      assert AllLexed(forms[0]);
    } else {
      CloseLexed(forms);
      RootLexed(Close(forms));
    }
  }

  // Whatever the text, well formed or not: its tree, printed and parsed again, is the same tree.
  lemma ReformatKeepsTree(s: string)
    requires Ordinary(s) && !HasFloat(Parsed(s))
    ensures Parsed(Dump(Parsed(s), 0, true)) == Seq([Parsed(s)])
  {
    hide Run, Dump, Root, HasFloat, Printable, Lexed, Ordinary;
    StartTidy();
    RunTidy(START, s);
    RootLexed(Run(START, s).forms);
    LexedPrintable(Parsed(s));
    PrintParse(Parsed(s));
  }

  lemma StartTidy()
    ensures Tidy(START)
  {
    assert AllLexed([]);
  }
}
