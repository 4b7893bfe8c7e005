/**
 How strings, numbers and words are written: every string has a literal, the integer tokens are the decimal numbers, and
 the words are what is left.
 */
module Literals {
  import opened Basics
  import opened Forms
  import opened Printing
  import opened Strings

  // ---------- strings ----------

  // A character of a string as it is written: quotes, backslashes and the characters 7 to 13 with a backslash.
  function Written(ch: char): (u: string)
    ensures IsUnit(u) && u != "\""
  {
    var code := ch as int;
    if ch == '"' || ch == '\\' then
      assert ['\\', ch] != "\"";
      ['\\', ch]
    else if 7 <= code <= 13 then
      assert ['\\', "abtnvfr"[code - 7]] != "\"";
      ['\\', "abtnvfr"[code - 7]]
    else
      assert [ch][0] != '"';
      [ch]
  }

  function Literal(s: string): string {
    if s == "" then "" else Written(s[0]) + Literal(s[1..])
  }

  lemma {:induction false} LiteralUnescaped(s: string)
    ensures Unescaped(Literal(s)) == s
  {
    hide Unescaped, Written;
    if s == "" {
      UnescapedNothing();
    } else {
      LiteralUnescaped(s[1..]);
      WrittenUnescaped(s[0], Literal(s[1..]));
      assert s == [s[0]] + s[1..];
    }
  }

  lemma WrittenUnescaped(ch: char, rest: string)
    ensures Unescaped(Written(ch) + rest) == [ch] + Unescaped(rest)
  {
    hide Unescaped;
    var u := Written(ch);
    if |u| == 1 {
      UnescapedHead(ch, rest);
    } else {
      UnescapedHead(u[1], rest);
      assert u == ['\\', u[1]];
    }
  }

  lemma {:induction false} LiteralRun(l: Lexer, s: string)
    requires InString(l)
    ensures var r := Run(l, Literal(s)); InString(r) && r.forms == l.forms && r.tok == l.tok + Literal(s)
    decreases |s|
  {
    hide Run, InString, Written, IsUnit;
    if s == "" {
      RunNothing(l);
      assert l.tok + "" == l.tok;
    } else {
      UnitRun(l, Written(s[0]));
      LiteralRun(Run(l, Written(s[0])), s[1..]);
      RunAppend(l, Written(s[0]), Literal(s[1..]));
      Grouped(l.tok, Written(s[0]), Literal(s[1..]));
    }
  }

  // Every string can be written.
  lemma LiteralRead(l: Lexer, s: string)
    requires Idle(l) && l.lex.IsFree()
    ensures var r := Run(l, "\"" + Literal(s) + "\""); Idle(r) && r.lex == QstrOut && r.forms == Add(l.forms, Str(s))
  {
    hide Run, Step, Idle, InString, Literal, Unescaped, Add;
    QuoteOpens(l);
    RunOne(l, '"');
    var l1 := Run(l, "\"");
    LiteralRun(l1, s);
    var l2 := Run(l1, Literal(s));
    assert l2.tok == Literal(s);
    LiteralUnescaped(s);
    QuoteCloses(l2);
    RunOne(l2, '"');
    RunAppend(l, "\"", Literal(s));
    RunAppend(l, "\"" + Literal(s), "\"");
  }

  // A backslash in front of any other character stands for nothing.
  lemma OtherEscapes(ch: char, rest: string)
    requires ch !in "abfnrtv"
    ensures Unescaped(['\\', ch] + rest) == [ch] + Unescaped(rest)
  {
    hide Unescaped;
    UnescapedHead(ch, rest);
    assert "abfnrtv"[0] == 'a' && "abfnrtv"[1] == 'b' && "abfnrtv"[2] == 'f' && "abfnrtv"[3] == 'n';
    assert "abfnrtv"[4] == 'r' && "abfnrtv"[5] == 't' && "abfnrtv"[6] == 'v';
  }

  // ---------- integers ----------

  ghost predicate AllDigits(s: string) {
    s != "" && forall k :: 0 <= k < |s| ==> IsDigit(s[k])
  }

  // A token of digits is their number, negated behind a minus sign; beyond 64 bits it is the nearest integer.
  lemma DigitsRead(s: string)
    requires AllDigits(s)
    ensures var n: int := DigitsValue(s);
            && Classified(s) == Classified("+" + s) == Int(if n > INT64_MAX then INT64_MAX else n)
            && Classified("-" + s) == Int(if -n < INT64_MIN then INT64_MIN else -n)
  {
    hide DigitsValue;
    var plus, minus := "+" + s, "-" + s;
    assert plus[1..] == s && minus[1..] == s;
    forall k | 1 <= k < |plus| ensures IsDigit(plus[k]) && IsDigit(minus[k]) {
      assert plus[k] == s[k - 1] && minus[k] == s[k - 1];
    }
    assert IsDigit(s[0]);
  }

  // No other token is an integer.
  lemma IntegersAreDigits(s: string)
    requires Classified(s).Int?
    ensures AllDigits(s) || (AllDigits(s[1..]) && (s[0] == '+' || s[0] == '-'))
  {
  }

  // Leading zeros do not count.
  lemma {:induction false} ZerosIgnored(s: string)
    requires forall k :: 0 <= k < |s| ==> IsDigit(s[k])
    ensures forall k :: 0 <= k < |s| + 1 ==> IsDigit(("0" + s)[k])
    ensures DigitsValue("0" + s) == DigitsValue(s)
    decreases |s|
  {
    var t := "0" + s;
    forall k | 0 <= k < |t| ensures IsDigit(t[k]) {
      assert k > 0 ==> t[k] == s[k - 1];
    }
    if s == "" {
      assert t == "0" && t[..0] == "";
    } else {
      ZerosIgnored(s[..|s| - 1]);
      assert t[..|t| - 1] == "0" + s[..|s| - 1] && t[|t| - 1] == s[|s| - 1];
    }
  }

  // ---------- words ----------

  // A digit, or a digit or sign with digits and dots behind it.
  predicate NumberLike(s: string) {
    || (|s| == 1 && '0' <= s[0] <= '9')
    || (|s| > 1 && (s[0] == '+' || s[0] == '-' || '0' <= s[0] <= '9')
        && forall k :: 1 <= k < |s| ==> '0' <= s[k] <= '9' || s[k] == '.')
  }

  // These end a word or cannot be in one.
  predicate Breaks(ch: char) {
    ch == '(' || ch == ')' || ch == ';' || ch == ' ' || ch == '\t' || ch == '\r' || ch == '\n' || ch == '\0'
  }

  // Numbers are integers or floating-point literals, four tokens are constants, and all others are words.
  lemma TokensAre(s: string)
    ensures Classified(s).Int? || Classified(s).Float? <==> NumberLike(s)
    ensures Classified(s).Float? ==> Classified(s) == Float(s)
    ensures Classified("#t") == Bool(true) && Classified("#f") == Bool(false)
    ensures Classified("#v") == Void && Classified("#n") == Null
    ensures Classified(s) == Word(s) <==> !NumberLike(s) && s != "#t" && s != "#f" && s != "#v" && s != "#n"
  {
    if NumberLike(s) && !IsInteger(s) {
      var k :| 1 <= k < |s| && s[k] == '.';
      assert s[1..][k - 1] == '.';
    }
  }

  // The words that can be printed and read.
  lemma WordsAre(w: string)
    ensures IsWord(w)
       <==> && w != "" && w[0] != '"' && w[0] != '\\' && (forall k :: 0 <= k < |w| ==> !Breaks(w[k]))
            && !NumberLike(w) && w != "#t" && w != "#f" && w != "#v" && w != "#n"
  {
    hide Classified, NumberLike;
    TokensAre(w);
    assert forall ch :: Breaks(ch) <==> IsDelimiter(ch) || ch == '\0';
  }
}
