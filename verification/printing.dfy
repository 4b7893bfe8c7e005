/**
 Printing forms with newlines and indentation, and reading them back.
 */
module Printing {
  import opened Basics
  import opened Forms

  function Digit(n: nat): (ch: char)
    requires n < 10
    ensures IsDigit(ch) && DigitValue(ch) == n
  {
    '0' + n as char
  }

  function Digits(n: nat): (s: string)
    ensures s != "" && forall k :: 0 <= k < |s| ==> IsDigit(s[k])
    ensures DigitsValue(s) == n
  {
    if n < 10 then
      assert [Digit(n)][..0] == "";
      [Digit(n)]
    else
      var front := Digits(n / 10);
      assert (front + [Digit(n % 10)])[..|front|] == front;
      front + [Digit(n % 10)]
  }

  function Decimal(n: int): string {
    if n < 0 then "-" + Digits(-n) else Digits(n)
  }

  lemma {:induction false} NoLeadingZero(n: nat)
    ensures Digits(n)[0] == '0' <==> n == 0
  {
    if n >= 10 {
      NoLeadingZero(n / 10);
    }
  }

  // An integer is printed with a minus sign exactly if it is negative, and without leading zeros.
  lemma DecimalIs(n: int)
    ensures Decimal(n) != ""
    ensures n < 0 ==> Decimal(n) == "-" + Decimal(-n)
    ensures n >= 0 ==> IsDigit(Decimal(n)[0]) && (Decimal(n)[0] == '0' <==> n == 0) && (n == 0 ==> Decimal(n) == "0")
  {
    if n >= 0 {
      NoLeadingZero(n);
    }
  }

  // A C string ends at its first NUL.
  function CString(s: string): string {
    if s == "" || s[0] == '\0' then "" else [s[0]] + CString(s[1..])
  }

  function Spaces(n: nat): string {
    if n == 0 then "" else " " + Spaces(n - 1)
  }

  ghost predicate HasFloat(t: Tree) {
    t.Float? || (t.Seq? && exists i :: 0 <= i < |t.items| && HasFloat(t.items[i]))
  }

  function AtomText(t: Tree): string
    requires !t.Seq? && !t.Float?
  {
    match t
    case Void => "#v"
    case Null => "#n"
    case Bool(b) => if b then "#t" else "#f"
    case Int(n) => Decimal(n)
    case Word(w) => CString(w)
    case Str(s) => "\"" + Escaped(CString(s)) + "\""
  }

  predicate HasSeq(items: seq<Tree>) {
    exists i :: 0 <= i < |items| && items[i].Seq?
  }

  // The text of a form at a level; the first form of a sequence is not preceded by a space.
  function Dump(t: Tree, level: nat, first: bool): string
    requires !HasFloat(t)
  {
    (if level != 0 && !first then " " else "") +
    if t.Seq? then OpenText(level) + DumpItems(t.items, level + 1, true) + CloseText(t.items, level)
    else AtomText(t)
  }

  function OpenText(level: nat): string {
    if level > 0 then "\n" + Spaces(level) + "(" else "("
  }

  function CloseText(items: seq<Tree>, level: nat): string {
    if HasSeq(items) then "\n" + Spaces(level) + ")" else ")"
  }

  function DumpItems(items: seq<Tree>, level: nat, first: bool): string
    requires forall i :: 0 <= i < |items| ==> !HasFloat(items[i])
  {
    if items == [] then "" else Dump(items[0], level, first) + DumpItems(items[1..], level, false)
  }

  // ---------- what can be read back ----------

  // A word as the lexer makes them.
  ghost predicate IsWord(w: string) {
    && w != "" && w[0] != '"' && w[0] != '\\'
    && (forall k :: 0 <= k < |w| ==> !IsDelimiter(w[k]) && w[k] != '\0')
    && Classified(w) == Word(w)
  }

  ghost predicate Printable(t: Tree) {
    match t
    case Int(n) => INT64_MIN <= n <= INT64_MAX
    case Float(_) => false
    case Word(w) => IsWord(w)
    case Str(s) => '\0' !in s && '\\' !in s
    case Seq(items) => forall i :: 0 <= i < |items| ==> Printable(items[i])
    case _ => true
  }

  lemma {:induction false} PrintableNoFloat(t: Tree)
    requires Printable(t)
    ensures !HasFloat(t)
  {
    if t.Seq? {
      forall i | 0 <= i < |t.items| ensures !HasFloat(t.items[i]) {
        PrintableNoFloat(t.items[i]);
      }
    }
  }

  lemma {:induction false} CStringWhole(s: string)
    requires '\0' !in s
    ensures CString(s) == s
  {
    if s != "" {
      CStringWhole(s[1..]);
      assert s == [s[0]] + s[1..];
    }
  }

  // ---------- tokens ----------

  ghost predicate IsToken(w: string) {
    w != "" && w[0] != '"' && w[0] != '\\' && forall k :: 0 <= k < |w| ==> !IsDelimiter(w[k])
  }

  lemma DecimalIsInt(n: int)
    requires INT64_MIN <= n <= INT64_MAX
    ensures IsToken(Decimal(n)) && Classified(Decimal(n)) == Int(n)
  {
    if n < 0 {
      var s := Decimal(n);
      assert s[1..] == Digits(-n);
    }
  }

  // The forms, with a token that is not complete yet.
  function Settled(l: Lexer): Open {
    if l.lex.IsTok() then Add(l.forms, Classified(l.tok)) else l.forms
  }

  // Between forms, possibly behind an incomplete token.
  ghost predicate Idle(l: Lexer) {
    !l.failed && Balanced(l) && (l.lex.IsTok() || l.lex.IsFree())
  }

  lemma BlankStep(l: Lexer, ch: char)
    requires Idle(l) && (IsBlank(ch) || IsEol(ch))
    ensures var r := Run(l, [ch]); Idle(r) && r.lex.IsFree() && r.forms == Settled(l)
  {
    hide Add, Close, Classified, NextTok;
    assert [ch][1..] == "";
  }

  lemma OpenStep(l: Lexer)
    requires Idle(l)
    ensures var r := Run(l, "("); Idle(r) && r.lex.IsFree() && r.forms == Settled(l) + [[]]
  {
    hide Add, Close, Classified, NextTok;
    assert "("[1..] == "";
  }

  lemma CloseFree(l: Lexer)
    requires Idle(l) && |l.forms| > 1 && l.lex.IsFree()
    ensures var r := Step(l, ')'); Idle(r) && r.lex.IsFree() && r.forms == Close(l.forms)
  {
    hide Add, Close, Classified, NextTok;
  }

  lemma CloseTok(l: Lexer)
    requires Idle(l) && |l.forms| > 1 && l.lex.IsTok()
    ensures var r := Step(l, ')'); Idle(r) && r.lex.IsFree() && r.forms == Close(Add(l.forms, Classified(l.tok)))
  {
    hide Add, Close, Classified, NextTok;
  }

  lemma CloseStep(l: Lexer)
    requires Idle(l) && |l.forms| > 1
    ensures var r := Run(l, ")"); Idle(r) && r.lex.IsFree() && |Settled(l)| > 1 && r.forms == Close(Settled(l))
  {
    hide Add, Close, Classified, Step, Run;
    RunOne(l, ')');
    if l.lex.IsTok() {
      CloseTok(l);
    } else {
      CloseFree(l);
    }
  }

  // A character of a token.
  lemma TokenStep(l: Lexer, ch: char)
    requires Idle(l) && !IsDelimiter(ch) && (l.lex.IsTok() || (ch != '"' && ch != '\\'))
    ensures var r := Step(l, ch);
            && Idle(r) && r.lex.IsTok() && r.forms == l.forms
            && r.tok == if l.lex.IsTok() then l.tok + [ch] else [ch]
  {
  }

  lemma RunHead(l: Lexer, s: string)
    requires s != ""
    ensures Run(l, s) == Run(Step(l, s[0]), s[1..])
  {
  }

  lemma {:induction false} TokenGrows(l: Lexer, w: string)
    requires Idle(l) && l.lex.IsTok() && forall k :: 0 <= k < |w| ==> !IsDelimiter(w[k])
    ensures var r := Run(l, w); Idle(r) && r.lex.IsTok() && r.forms == l.forms && r.tok == l.tok + w
    decreases |w|
  {
    hide Idle, Run, Step, IsDelimiter;
    if w == "" {
      RunNothing(l);
      assert l.tok + w == l.tok;
    } else {
      TokenStep(l, w[0]);
      RunHead(l, w);
      TokenGrows(Step(l, w[0]), w[1..]);
      assert w == [w[0]] + w[1..];
      Grouped(l.tok, [w[0]], w[1..]);
    }
  }

  lemma TokenRun(l: Lexer, w: string)
    requires Idle(l) && l.lex.IsFree() && IsToken(w)
    ensures var r := Run(l, w); Idle(r) && r.lex.IsTok() && r.forms == l.forms && r.tok == w
  {
    hide Idle, Run, Step, IsDelimiter;
    FreeSettled(l);
    TokenStep(l, w[0]);
    RunHead(l, w);
    TokenGrows(Step(l, w[0]), w[1..]);
    assert w == [w[0]] + w[1..];
  }

  lemma RunNothing(l: Lexer)
    ensures Run(l, "") == l
  {
  }

  lemma RunOne(l: Lexer, ch: char)
    ensures Run(l, [ch]) == Step(l, ch)
  {
    assert [ch][1..] == "";
  }

  // ---------- strings ----------

  // Inside a string.
  ghost predicate InString(l: Lexer) {
    !l.failed && Balanced(l) && (l.lex.QstrIn? || l.lex.QstrMid?)
  }

  lemma {:induction false} EscapedRun(l: Lexer, s: string)
    requires InString(l) && '\\' !in s
    ensures var r := Run(l, Escaped(s)); InString(r) && r.forms == l.forms && r.tok == l.tok + Escaped(s)
    decreases |s|
  {
    hide Run, InString, Escaped;
    RunNothing(l);
    EscapedHead(s);
    if s == "" {
      assert l.tok + "" == l.tok;
    } else {
      var head := if s[0] == '"' then ['\\', '"'] else [s[0]];
      StringHead(l, s[0]);
      RunAppend(l, head, Escaped(s[1..]));
      EscapedRun(Run(l, head), s[1..]);
      Grouped(l.tok, head, Escaped(s[1..]));
    }
  }

  lemma Grouped(a: string, b: string, c: string)
    ensures (a + b) + c == a + (b + c)
  {
  }

  lemma EscapedHead(s: string)
    ensures Escaped(s) == if s == "" then "" else (if s[0] == '"' then ['\\', '"'] else [s[0]]) + Escaped(s[1..])
  {
  }

  lemma UnescapedHead(ch: char, s: string)
    ensures ch != '\\' ==> Unescaped([ch] + s) == [ch] + Unescaped(s)
    ensures Unescaped(['\\', ch] + s) == [EscapedChar(ch)] + Unescaped(s)
  {
    assert ([ch] + s)[1..] == s;
    assert (['\\', ch] + s)[2..] == s;
  }

  lemma StringHead(l: Lexer, ch: char)
    requires InString(l) && ch != '\\'
    ensures var head := if ch == '"' then ['\\', '"'] else [ch];
            var r := Run(l, head); InString(r) && r.forms == l.forms && r.tok == l.tok + head
  {
    if ch == '"' {
      var l1 := Step(l, '\\');
      assert ['\\', '"'][1..] == ['"'];
      assert l1.lex == QstrEsc && !l1.failed && l1.tok == l.tok + ['\\'];
      var l2 := Step(l1, '"');
      assert ['"'][1..] == "";
      assert l.tok + ['\\', '"'] == l.tok + ['\\'] + ['"'];
    } else {
      assert [ch][1..] == "";
    }
  }

  lemma {:induction false} UnescapedEscaped(s: string)
    requires '\\' !in s
    ensures Unescaped(Escaped(s)) == s
  {
    hide Unescaped, Escaped;
    EscapedHead(s);
    if s == "" {
      UnescapedNothing();
    } else {
      UnescapedEscaped(s[1..]);
      UnescapedHead(s[0], Escaped(s[1..]));
      assert s == [s[0]] + s[1..];
    }
  }

  lemma UnescapedNothing()
    ensures Unescaped("") == ""
  {
  }

  lemma QuoteOpens(l: Lexer)
    requires Idle(l) && l.lex.IsFree()
    ensures var r := Step(l, '"'); InString(r) && r.tok == "" && r.forms == l.forms
  {
  }

  lemma QuoteCloses(l: Lexer)
    requires InString(l)
    ensures var r := Step(l, '"'); Idle(r) && r.lex == QstrOut && r.forms == Add(l.forms, Str(Unescaped(l.tok)))
  {
    hide Add, Unescaped;
  }

  lemma StringRun(l: Lexer, s: string)
    requires Idle(l) && l.lex.IsFree() && '\\' !in s
    ensures var r := Run(l, "\"" + Escaped(s) + "\"");
            Idle(r) && r.lex == QstrOut && r.forms == Add(l.forms, Str(s))
  {
    hide Escaped, Unescaped, Add, Idle, InString, Run, Step;
    QuoteOpens(l);
    var l1 := Step(l, '"');
    EscapedRun(l1, s);
    var l2 := Run(l1, Escaped(s));
    assert l2.tok == Escaped(s);
    UnescapedEscaped(s);
    QuoteCloses(l2);
    RunOne(l, '"');
    RunOne(l2, '"');
    RunAppend(l, "\"", Escaped(s));
    RunAppend(l, "\"" + Escaped(s), "\"");
  }

  // ---------- forms ----------

  lemma AtomRun(t: Tree, l: Lexer)
    requires Printable(t) && !t.Seq? && Idle(l) && l.lex.IsFree()
    ensures var r := Run(l, AtomText(t)); Idle(r) && Settled(r) == Add(l.forms, t) && (t.Str? <==> !r.lex.IsTok())
  {
    hide Run, Escaped, Decimal, Idle, Add;
    match t
    case Str(s) =>
      CStringWhole(s);
      StringRun(l, s);
      SettledOut(Run(l, AtomText(t)));
    case Int(n) =>
      DecimalIsInt(n);
      TokenRun(l, AtomText(t));
    case Word(w) =>
      CStringWhole(w);
      TokenRun(l, AtomText(t));
    case Void => TokenRun(l, AtomText(t));
    case Null => TokenRun(l, AtomText(t));
    case Bool(b) => TokenRun(l, AtomText(t));
  }

  lemma SettledOut(l: Lexer)
    requires l.lex == QstrOut
    ensures Settled(l) == l.forms && !l.lex.IsTok()
  {
  }

  lemma {:induction false} SpacesRun(l: Lexer, n: nat)
    requires Idle(l) && l.lex.IsFree()
    ensures var r := Run(l, Spaces(n)); Idle(r) && r.lex.IsFree() && r.forms == l.forms
    decreases n
  {
    hide Idle, Run;
    RunNothing(l);
    if n > 0 {
      BlankStep(l, ' ');
      FreeSettled(l);
      RunAppend(l, " ", Spaces(n - 1));
      SpacesRun(Run(l, " "), n - 1);
    }
  }

  lemma IndentRun(l: Lexer, level: nat)
    requires Idle(l)
    ensures var r := Run(l, "\n" + Spaces(level)); Idle(r) && r.lex.IsFree() && r.forms == Settled(l)
  {
    hide Run, Idle, Settled;
    BlankStep(l, '\n');
    SpacesRun(Run(l, "\n"), level);
    RunAppend(l, "\n", Spaces(level));
  }

  lemma OpenRun(l: Lexer, level: nat)
    requires Idle(l)
    ensures var r := Run(l, OpenText(level)); Idle(r) && r.lex.IsFree() && r.forms == Settled(l) + [[]]
  {
    hide Run, Idle, Spaces;
    if level > 0 {
      IndentRun(l, level);
      var l1 := Run(l, "\n" + Spaces(level));
      OpenStep(l1);
      RunAppend(l, "\n" + Spaces(level), "(");
      assert Settled(l1) == l1.forms;
    } else {
      OpenStep(l);
    }
  }

  lemma CloseRun(l: Lexer, items: seq<Tree>, level: nat)
    requires Idle(l) && |Settled(l)| > 1
    ensures var r := Run(l, CloseText(items, level)); Idle(r) && r.lex.IsFree() && r.forms == Close(Settled(l))
  {
    hide Run, Idle, Spaces, HasSeq, Close;
    if HasSeq(items) {
      IndentRun(l, level);
      var l1 := Run(l, "\n" + Spaces(level));
      CloseStep(l1);
      RunAppend(l, "\n" + Spaces(level), ")");
      assert Settled(l1) == l1.forms;
    } else {
      CloseStep(l);
    }
  }

  function AddAll(forms: Open, items: seq<Tree>): Open {
    forms[..|forms| - 1] + [forms[|forms| - 1] + items]
  }

  lemma AddRest(forms: Open, items: seq<Tree>)
    ensures items == [] ==> AddAll(forms, items) == forms
    ensures items != [] ==> AddAll(forms, items) == AddAll(Add(forms, items[0]), items[1..])
  {
    if items == [] {
      assert forms[|forms| - 1] + items == forms[|forms| - 1];
      assert forms == forms[..|forms| - 1] + [forms[|forms| - 1]];
    } else {
      var last := forms[|forms| - 1];
      assert last + items == last + [items[0]] + items[1..];
      assert Add(forms, items[0])[..|forms| - 1] == forms[..|forms| - 1];
    }
  }

  lemma CloseAll(forms: Open, items: seq<Tree>)
    ensures var inner := AddAll(forms + [[]], items);
            |inner| > 1 && Close(inner) == Add(forms, Seq(items))
  {
    assert (forms + [[]])[..|forms|] == forms;
    assert [] + items == items;
    var inner := AddAll(forms + [[]], items);
    assert inner == forms + [items];
    assert inner[..|inner| - 1] == forms;
  }

  lemma PrefixRun(l: Lexer, level: nat, first: bool)
    requires Idle(l) && (l.lex.IsFree() || (level > 0 && !first))
    ensures var r := Run(l, if level != 0 && !first then " " else "");
            Idle(r) && r.lex.IsFree() && r.forms == Settled(l)
  {
    if level != 0 && !first {
      BlankStep(l, ' ');
    }
  }

  // Reading a printed form adds exactly that form to the current one.
  lemma {:induction false} DumpRun(t: Tree, level: nat, first: bool, l: Lexer)
    requires Printable(t) && !HasFloat(t) && Idle(l) && (l.lex.IsFree() || (level > 0 && !first))
    ensures var r := Run(l, Dump(t, level, first));
            Idle(r) && Settled(r) == Add(Settled(l), t) && (t.Seq? || t.Str? <==> !r.lex.IsTok())
    decreases t
  {
    hide Run, Idle, AtomText, OpenText, CloseText, Add, Close, AddAll, HasFloat;
    var prefix := if level != 0 && !first then " " else "";
    PrefixRun(l, level, first);
    var l1 := Run(l, prefix);
    FreeSettled(l1);
    if t.Seq? {
      NoFloatInside(t);
      var open, inner, close := OpenText(level), DumpItems(t.items, level + 1, true), CloseText(t.items, level);
      assert Dump(t, level, first) == prefix + (open + inner + close);
      RunAppend(l, prefix, open + inner + close);
      RunAppend(l1, open + inner, close);
      RunAppend(l1, open, inner);
      OpenRun(l1, level);
      var l2 := Run(l1, open);
      FreeSettled(l2);
      ItemsRun(t.items, level + 1, true, l2);
      var l3 := Run(l2, inner);
      CloseAll(l1.forms, t.items);
      CloseRun(l3, t.items, level);
      FreeSettled(Run(l3, close));
    } else {
      assert Dump(t, level, first) == prefix + AtomText(t) by { NotSeq(t); }
      NotSeq(t);
      RunAppend(l, prefix, AtomText(t));
      AtomRun(t, l1);
    }
  }

  lemma FreeSettled(l: Lexer)
    ensures l.lex.IsFree() ==> Settled(l) == l.forms && !l.lex.IsTok()
  {
  }

  lemma NoFloatInside(t: Tree)
    requires t.Seq? && !HasFloat(t)
    ensures forall i :: 0 <= i < |t.items| ==> !HasFloat(t.items[i])
  {
  }

  lemma NotSeq(t: Tree)
    requires !t.Seq? && Printable(t)
    ensures !t.Float?
  {
  }

  lemma {:induction false} ItemsRun(items: seq<Tree>, level: nat, first: bool, l: Lexer)
    requires forall i :: 0 <= i < |items| ==> Printable(items[i]) && !HasFloat(items[i])
    requires level > 0 && Idle(l) && (l.lex.IsFree() || !first)
    ensures var r := Run(l, DumpItems(items, level, first)); Idle(r) && Settled(r) == AddAll(Settled(l), items)
    decreases items
  {
    hide Idle, Settled, Dump, Add, AddAll, HasFloat, Printable;
    AddRest(Settled(l), items);
    if items != [] {
      DumpRun(items[0], level, first, l);
      var l1 := Run(l, Dump(items[0], level, first));
      RunAppend(l, Dump(items[0], level, first), DumpItems(items[1..], level, false));
      ItemsRun(items[1..], level, false, l1);
    }
  }

  // Printing a form and parsing the text gives a root with exactly that form. A single token that is no string is not
  // complete at the end of the text, so it is lost: the form must be a sequence or a string.
  lemma PrintParse(t: Tree)
    requires Printable(t)
    ensures !HasFloat(t)
    ensures Parsed(Dump(t, 0, true)) == Seq([t]) <==> t.Seq? || t.Str?
  {
    hide Run, Dump, Idle, HasFloat;
    PrintableNoFloat(t);
    StartIdle();
    DumpRun(t, 0, true, START);
    var r := Run(START, Dump(t, 0, true));
    FreeSettled(START);
    AddFirst(t);
    if r.lex.IsTok() {
      PendingLost(r.forms, Classified(r.tok), t);
    }
  }

  lemma StartIdle()
    ensures Idle(START) && START.lex.IsFree() && START.forms == [[]]
  {
  }

  lemma AddFirst(t: Tree)
    ensures Add([[]], t) == [[t]]
  {
    var forms: Open := [[]];
    assert forms[..0] == [] && forms[0] + [t] == [t];
  }

  lemma PendingLost(forms: Open, u: Tree, t: Tree)
    requires Add(forms, u) == [[t]]
    ensures Root(forms) == Seq([])
  {
    assert |forms| == 1 && forms == [forms[0]];
    assert [forms[0] + [u]] == [[t]];
    assert |forms[0] + [u]| == 1;
  }

  // ---------- layout ----------

  lemma {:induction false} SpacesAre(n: nat)
    ensures Spaces(n) == seq(n, _ => ' ')
  {
    if n > 0 {
      SpacesAre(n - 1);
      assert seq(n, _ => ' ') == [' '] + seq(n - 1, _ => ' ');
    }
  }

  lemma OpenIs(n: nat)
    ensures OpenText(n) == (if n > 0 then ['\n'] + seq(n, _ => ' ') else "") + "("
  {
    hide Spaces;
    SpacesAre(n);
  }

  lemma CloseIs(items: seq<Tree>, n: nat)
    ensures var ends := exists i :: 0 <= i < |items| && items[i].Seq?;
            CloseText(items, n) == (if ends then ['\n'] + seq(n, _ => ' ') else "") + ")"
  {
    hide Spaces;
    SpacesAre(n);
  }

  // A sequence inside n others begins on a line of its own behind n spaces; it also ends on one if there is a sequence
  // in it, and otherwise right behind its last item.
  lemma LayoutOf(t: Tree, n: nat, first: bool)
    requires t.Seq? && !HasFloat(t)
    ensures forall i :: 0 <= i < |t.items| ==> !HasFloat(t.items[i])
    ensures var line := ['\n'] + seq(n, _ => ' ');
            var ends := exists i :: 0 <= i < |t.items| && t.items[i].Seq?;
            Dump(t, n, first)
            == (if n > 0 && !first then " " else "")
            + ((if n > 0 then line else "") + "(" + DumpItems(t.items, n + 1, true) +
               ((if ends then line else "") + ")"))
  {
    hide DumpItems, OpenText, CloseText, HasFloat;
    NoFloatInside(t);
    OpenIs(n);
    CloseIs(t.items, n);
  }

  // The items of a sequence inside n - 1 others, one space apart.
  lemma LayoutOfItems(items: seq<Tree>, n: nat, first: bool)
    requires n > 0 && items != [] && forall i :: 0 <= i < |items| ==> !HasFloat(items[i])
    ensures DumpItems(items, n, first)
         == (if first then "" else " ") + Dump(items[0], n, true) + DumpItems(items[1..], n, false)
  {
    hide HasFloat, Dump;
    SpaceBefore(items[0], n, first);
  }

  lemma SpaceBefore(t: Tree, n: nat, first: bool)
    requires n > 0 && !HasFloat(t)
    ensures Dump(t, n, first) == (if first then "" else " ") + Dump(t, n, true)
  {
    hide DumpItems, OpenText, CloseText, HasFloat, AtomText;
    if t.Seq? {
      NoFloatInside(t);
    }
  }
}
