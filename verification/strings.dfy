/**
 Which strings survive printing: those without a backslash, because the printer escapes only quotes.
 */
module Strings {
  import opened Forms
  import opened Printing

  // A text that does not end in the middle of an escape.
  predicate Complete(s: string) {
    if s == "" then true
    else if s[0] != '\\' then Complete(s[1..])
    else |s| > 1 && Complete(s[2..])
  }

  lemma {:induction false} UnescapedConcat(a: string, b: string)
    requires Complete(a)
    ensures Unescaped(a + b) == Unescaped(a) + Unescaped(b)
    ensures Complete(b) ==> Complete(a + b)
    decreases |a|
  {
    if a == "" {
      assert a + b == b;
      assert Unescaped(a) + Unescaped(b) == Unescaped(b);
    } else if a[0] != '\\' {
      assert (a + b)[1..] == a[1..] + b;
      UnescapedConcat(a[1..], b);
      Grouped([a[0]], Unescaped(a[1..]), Unescaped(b));
    } else {
      assert (a + b)[2..] == a[2..] + b;
      UnescapedConcat(a[2..], b);
      Grouped([EscapedChar(a[1])], Unescaped(a[2..]), Unescaped(b));
    }
  }

  // One character, or an escaped one.
  predicate IsUnit(u: string) {
    (|u| == 1 && u[0] != '\\') || (|u| == 2 && u[0] == '\\')
  }

  lemma UnitUnescaped(tok: string, u: string)
    requires Complete(tok) && IsUnit(u)
    ensures Complete(tok + u) && |Unescaped(tok + u)| == |Unescaped(tok)| + 1
  {
    if |u| == 1 {
      assert u[1..] == "";
    } else {
      assert u[2..] == "";
    }
    assert Complete("") && Unescaped("") == "";
    assert Complete(u) && |Unescaped(u)| == 1;
    UnescapedConcat(tok, u);
  }

  // Inside the first string of a text.
  ghost predicate InFirst(l: Lexer) {
    InString(l) && l.forms == [[]] && Complete(l.tok)
  }

  lemma UnitRun(l: Lexer, u: string)
    requires InString(l) && IsUnit(u) && u != "\""
    ensures var r := Run(l, u); InString(r) && r.forms == l.forms && r.tok == l.tok + u
  {
    hide Run;
    if |u| == 1 {
      assert u == [u[0]];
      RunOne(l, u[0]);
    } else {
      assert u == [u[0], u[1]];
      assert u[1..] == [u[1]];
      RunHead(l, u);
      RunOne(Step(l, u[0]), u[1]);
      Grouped(l.tok, [u[0]], [u[1]]);
      assert [u[0]] + [u[1]] == u;
    }
  }

  lemma UnitStep(l: Lexer, u: string)
    requires InFirst(l) && IsUnit(u) && u != "\""
    ensures var r := Run(l, u); InFirst(r) && r.tok == l.tok + u
  {
    hide Run, Unescaped, Complete, InString, IsUnit;
    UnitUnescaped(l.tok, u);
    UnitRun(l, u);
  }

  // The first form of a text, once there is one, stays.
  lemma {:induction false} FirstStays(l: Lexer, s: string)
    requires Balanced(l) && l.forms[0] != []
    ensures var r := Run(l, s); r.forms[0] != [] && r.forms[0][0] == l.forms[0][0]
    decreases |s|
  {
    hide Step;
    if s != "" {
      FirstStep(l, s[0]);
      FirstStays(Step(l, s[0]), s[1..]);
    }
  }

  lemma FirstStep(l: Lexer, ch: char)
    requires Balanced(l) && l.forms[0] != []
    ensures var r := Step(l, ch); Balanced(r) && r.forms[0] != [] && r.forms[0][0] == l.forms[0][0]
  {
    hide Fire;
    var l1 := if EndsToken(l.lex, ch) then Fire(l, TokOut, l.tok) else l;
    FirstFire(l, TokOut, l.tok);
    FirstFire(l1, NextLex(l.lex, ch), l.tok);
  }

  lemma FirstFire(l: Lexer, lex: Lex, tok: string)
    requires Balanced(l) && l.forms[0] != []
    ensures var r := Fire(l, lex, tok); Balanced(r) && r.forms[0] != [] && r.forms[0][0] == l.forms[0][0]
  {
  }

  lemma {:induction false} RootFirst(forms: Open)
    ensures Root(forms).Seq?
    ensures forms[0] != [] ==> Root(forms).items != [] && Root(forms).items[0] == forms[0][0]
    ensures forms == [[]] ==> Root(forms) == Seq([])
    decreases |forms|
  {
    if |forms| > 1 {
      RootFirst(Close(forms));
    }
  }

  // The first form of the text is a string shorter than n, or there is none.
  ghost predicate FirstShort(l: Lexer, n: int) {
    l.forms == [[]] || (l.forms[0] != [] && l.forms[0][0].Str? && |l.forms[0][0].str| < n)
  }

  // The string ends here, too early.
  lemma EndsHere(l: Lexer, rest: string, n: nat)
    requires InFirst(l) && |Unescaped(l.tok)| < n
    ensures FirstShort(Run(l, "\"" + rest), n)
  {
    hide Run, Unescaped, Idle, InString, Step;
    QuoteCloses(l);
    RunOne(l, '"');
    AddFirst(Str(Unescaped(l.tok)));
    RunAppend(l, "\"", rest);
    IdleBalanced(Step(l, '"'));
    FirstStays(Step(l, '"'), rest);
  }

  lemma IdleBalanced(l: Lexer)
    requires Idle(l)
    ensures Balanced(l)
  {
  }

  // A backslash makes what is read shorter than what was printed.
  lemma {:induction false} BackslashShortens(l: Lexer, s: string)
    requires InFirst(l) && '\\' in s
    ensures FirstShort(Run(l, Escaped(s) + "\""), |Unescaped(l.tok)| + |s|)
    decreases |s|, 0
  {
    hide Run, Escaped, Unescaped, InFirst, FirstShort, IsUnit;
    if s[0] != '\\' {
      EscapedHead(s);
      var u := if s[0] == '"' then ['\\', '"'] else [s[0]];
      UnitsAre(s[0], '"');
      Advance(l, u, Escaped(s[1..]) + "\"");
      Grouped(u, Escaped(s[1..]), "\"");
      BackslashShortens(Run(l, u), s[1..]);
    } else if |s| == 1 {
      NeverEnds(l, s);
    } else if s[1] == '"' {
      ClosedEarly(l, s);
    } else {
      EscapedTwo(s);
      UnitsAre(s[1], s[1]);
      Advance(l, ['\\', s[1]], Escaped(s[2..]) + "\"");
      Shorter(Run(l, ['\\', s[1]]), s[2..], |Unescaped(l.tok)| + |s|);
    }
  }

  lemma EscapedTwo(s: string)
    requires |s| >= 2 && s[0] == '\\' && s[1] != '"'
    ensures Escaped(s) + "\"" == ['\\', s[1]] + (Escaped(s[2..]) + "\"")
  {
    hide Escaped;
    EscapedHead(s);
    EscapedHead(s[1..]);
    assert s[1..][1..] == s[2..];
    var rest := Escaped(s[2..]);
    Grouped(['\\'], [s[1]], rest);
    assert ['\\'] + [s[1]] == ['\\', s[1]];
    Grouped(['\\', s[1]], rest, "\"");
  }

  lemma EscapedQuote(s: string)
    requires |s| >= 2 && s[0] == '\\' && s[1] == '"'
    ensures Escaped(s) + "\"" == ['\\', '\\'] + ("\"" + (Escaped(s[2..]) + "\""))
  {
    hide Escaped;
    EscapedHead(s);
    EscapedHead(s[1..]);
    assert s[1..][1..] == s[2..];
    var rest := Escaped(s[2..]);
    Grouped(['\\'], ['\\', '"'], rest);
    assert ['\\'] + ['\\', '"'] == ['\\', '\\'] + "\"";
    Grouped(['\\', '\\'] + "\"", rest, "\"");
    Grouped(['\\', '\\'], "\"", rest + "\"");
  }

  lemma ClosedEarly(l: Lexer, s: string)
    requires InFirst(l) && |s| >= 2 && s[0] == '\\' && s[1] == '"'
    ensures FirstShort(Run(l, Escaped(s) + "\""), |Unescaped(l.tok)| + |s|)
  {
    hide Run, Escaped, Unescaped, InFirst, FirstShort, IsUnit;
    EscapedQuote(s);
    UnitsAre('"', '\\');
    var rest := Escaped(s[2..]) + "\"";
    Advance(l, ['\\', '\\'], "\"" + rest);
    EndsHere(Run(l, ['\\', '\\']), rest, |Unescaped(l.tok)| + |s|);
  }

  lemma UnitsAre(a: char, b: char)
    ensures IsUnit(['\\', b]) && ['\\', b] != "\"" && (a != '\\' ==> IsUnit([a])) && (a != '"' ==> [a] != "\"")
  {
    assert a != '"' ==> [a][0] != "\""[0];
  }

  lemma Advance(l: Lexer, u: string, rest: string)
    requires InFirst(l) && IsUnit(u) && u != "\""
    ensures var r := Run(l, u);
            && InFirst(r) && |Unescaped(r.tok)| == |Unescaped(l.tok)| + 1
            && Run(l, u + rest) == Run(r, rest)
  {
    hide Run, Unescaped, IsUnit;
    UnitStep(l, u);
    UnitUnescaped(l.tok, u);
    RunAppend(l, u, rest);
  }

  lemma NeverEnds(l: Lexer, s: string)
    requires InFirst(l) && s == "\\"
    ensures FirstShort(Run(l, Escaped(s) + "\""), |Unescaped(l.tok)| + |s|)
  {
    EscapedHead(s);
    EscapedHead(s[1..]);
    assert Escaped(s) + "\"" == ['\\', '"'];
    UnitStep(l, ['\\', '"']);
  }

  // The rest of a string of which one character is lost already.
  lemma Shorter(l: Lexer, s: string, n: nat)
    requires InFirst(l) && |Unescaped(l.tok)| + |s| < n
    ensures FirstShort(Run(l, Escaped(s) + "\""), n)
    decreases |s|, 1
  {
    hide Run, Escaped, Unescaped, Complete, InString;
    if '\\' in s {
      BackslashShortens(l, s);
      ShortWeaker(Run(l, Escaped(s) + "\""), |Unescaped(l.tok)| + |s|, n);
    } else {
      EscapedRun(l, s);
      RunAppend(l, Escaped(s), "\"");
      var r := Run(l, Escaped(s));
      UnescapedEscaped(s);
      UnescapedConcat(l.tok, Escaped(s));
      QuoteCloses(r);
      RunOne(r, '"');
      AddFirst(Str(Unescaped(r.tok)));
    }
  }

  lemma ShortWeaker(l: Lexer, m: int, n: int)
    requires FirstShort(l, m) && m <= n
    ensures FirstShort(l, n)
  {
  }

  // A string comes back exactly if it holds no backslash and no NUL.
  lemma StringsThatReturn(s: string)
    ensures Parsed(Dump(Str(s), 0, true)) == Seq([Str(s)]) <==> '\\' !in s && '\0' !in s
  {
    hide Run, Escaped, InString, Idle, Dump;
    var c := CString(s);
    CStringCuts(s);
    DumpString(s);
    DumpString(c);
    if '\\' !in c {
      PrintParse(Str(c));
    } else {
      BackslashLost(c);
    }
  }

  // With a backslash, the first form that is read is not a string as long as the one that was printed.
  lemma BackslashLost(c: string)
    requires CString(c) == c && '\\' in c
    ensures var t := Parsed(Dump(Str(c), 0, true));
            t.Seq? && (t.items == [] || (t.items[0].Str? && |t.items[0].str| < |c|))
  {
    hide Run, Escaped, InString, Idle, Dump;
    hide Complete, Unescaped, Step, Root, CString;
    DumpString(c);
    StartIdle();
    QuoteOpens(START);
    var l, rest := Step(START, '"'), Escaped(c) + "\"";
    QuoteFirst(rest);
    RunHead(START, "\"" + rest);
    OpensFirst(l);
    BackslashShortens(l, c);
    RootFirst(Run(l, rest).forms);
  }

  lemma QuoteFirst(rest: string)
    ensures var s := "\"" + rest; s != "" && s[0] == '"' && s[1..] == rest
  {
  }

  lemma OpensFirst(l: Lexer)
    requires InString(l) && l.forms == [[]] && l.tok == ""
    ensures InFirst(l) && |Unescaped(l.tok)| == 0
  {
  }

  // What is printed of a string ends at its first NUL.
  lemma {:induction false} CStringCuts(s: string)
    ensures var c := CString(s);
            && '\0' !in c && CString(c) == c && |c| <= |s| && ('\0' in s ==> |c| < |s|) && ('\0' !in s ==> c == s)
            && ('\\' in c ==> '\\' in s)
  {
    if s != "" && s[0] != '\0' {
      CStringCuts(s[1..]);
      assert s == [s[0]] + s[1..];
      assert ([s[0]] + CString(s[1..]))[1..] == CString(s[1..]);
    }
  }

  lemma DumpString(s: string)
    ensures Dump(Str(s), 0, true) == "\"" + (Escaped(CString(s)) + "\"")
  {
    hide Escaped;
    assert "" + ("\"" + Escaped(CString(s)) + "\"") == "\"" + (Escaped(CString(s)) + "\"");
  }
}
