/**
 Forms: the trees of the language's surface syntax, and the lexer that builds them.
 */
module Forms {
  import opened Basics

  // A floating-point literal is kept as its text.
  datatype Tree =
    | Void
    | Null
    | Bool(b: bool)
    | Int(n: int)
    | Float(text: string)
    | Word(word: string)
    | Str(str: string)
    | Seq(items: seq<Tree>)

  // ---------- escapes ----------

  function EscapedChar(ch: char): char {
    match ch
    case 'a' => '\U{7}'
    case 'b' => '\U{8}'
    case 'f' => '\U{C}'
    case 'n' => '\n'
    case 'r' => '\r'
    case 't' => '\t'
    case 'v' => '\U{B}'
    case _ => ch
  }

  function Unescaped(s: string): string {
    if s == "" then ""
    else if s[0] != '\\' then [s[0]] + Unescaped(s[1..])
    else if |s| == 1 then ""
    else [EscapedChar(s[1])] + Unescaped(s[2..])
  }

  function Escaped(s: string): (r: string)
    ensures |s| <= |r| <= 2 * |s|
  {
    if s == "" then ""
    else (if s[0] == '"' then ['\\', '"'] else [s[0]]) + Escaped(s[1..])
  }

  // ---------- tokens ----------

  predicate IsDigit(ch: char) {
    '0' <= ch <= '9'
  }

  function DigitValue(ch: char): (v: nat)
    requires IsDigit(ch)
    ensures v <= 9
  {
    ch as int - '0' as int
  }

  function DigitsValue(s: string): (n: nat)
    requires forall k :: 0 <= k < |s| ==> IsDigit(s[k])
  {
    if s == "" then 0 else 10 * DigitsValue(s[..|s| - 1]) + DigitValue(s[|s| - 1])
  }

  function Clamp(n: int): int {
    if n > INT64_MAX then INT64_MAX else if n < INT64_MIN then INT64_MIN else n
  }

  predicate StartsNumber(ch: char) {
    ch == '+' || ch == '-' || IsDigit(ch)
  }

  // An integer token: digits, with a sign only in front of a digit.
  predicate IsInteger(s: string) {
    if |s| == 1 then IsDigit(s[0])
    else |s| > 1 && StartsNumber(s[0]) && forall k :: 1 <= k < |s| ==> IsDigit(s[k])
  }

  function IntegerOf(s: string): int
    requires IsInteger(s)
  {
    if s[0] == '-' then Clamp(0 - DigitsValue(s[1..]))
    else if s[0] == '+' then Clamp(DigitsValue(s[1..]))
    else Clamp(DigitsValue(s))
  }

  // A token of digits with at least one dot, none of them in front.
  predicate IsFloat(s: string) {
    && |s| > 1 && StartsNumber(s[0]) && '.' in s[1..]
    && forall k :: 1 <= k < |s| ==> IsDigit(s[k]) || s[k] == '.'
  }

  function Classified(s: string): Tree {
    if IsInteger(s) then Int(IntegerOf(s))
    else if IsFloat(s) then Float(s)
    else if s == "#t" then Bool(true)
    else if s == "#f" then Bool(false)
    else if s == "#v" then Void
    else if s == "#n" then Null
    else Word(s)
  }

  // ---------- the lexer's states ----------

  datatype Lex =
    | Space
    | SeqIn | SeqOut
    | TokIn | TokMid | TokOut
    | ComIn | ComMid | ComOut
    | QstrIn | QstrMid | QstrOut | QstrEsc
  {
    predicate IsSeq() { SeqIn? || SeqOut? }
    predicate IsOut() { TokOut? || QstrOut? || ComOut? }
    predicate IsTok() { TokIn? || TokMid? }
    predicate IsQstr() { QstrIn? || QstrMid? || QstrEsc? }
    predicate IsCom() { ComIn? || ComMid? }
    // Between tokens.
    predicate IsFree() { IsSeq() || IsOut() || Space? }
    predicate FoundVal() { IsSeq() || TokOut? || QstrOut? }
  }

  predicate IsBlank(ch: char) {
    ch == ' ' || ch == '\t'
  }

  predicate IsEol(ch: char) {
    ch == '\r' || ch == '\n'
  }

  // These end a token.
  predicate IsDelimiter(ch: char) {
    ch == '(' || ch == ')' || ch == ';' || IsBlank(ch) || IsEol(ch)
  }

  // The state after a character.
  function NextLex(lex: Lex, ch: char): Lex {
    if ch == '\\' then
      if lex.QstrIn? || lex.QstrMid? then QstrEsc else if lex.QstrEsc? then QstrMid else lex
    else if ch == '"' then
      if lex.IsFree() then QstrIn
      else if lex.QstrEsc? then QstrMid
      else if lex.IsQstr() then QstrOut
      else if lex.ComIn? then ComMid
      else lex
    else if lex.IsQstr() then QstrMid
    else if IsEol(ch) && lex.IsCom() then ComOut
    else if lex.ComIn? then ComMid
    else if lex.ComMid? then ComMid
    else if ch == '(' then SeqIn
    else if ch == ')' then SeqOut
    else if ch == ';' then ComIn
    else if IsBlank(ch) || IsEol(ch) then if lex.IsTok() then TokOut else Space
    else if lex.IsFree() then TokIn
    else TokMid
  }

  // A token is complete when an opening or closing parenthesis or a comment follows it at once.
  predicate EndsToken(lex: Lex, ch: char) {
    lex.IsTok() && (ch == '(' || ch == ')' || ch == ';')
  }

  // The text since the token's first character.
  function NextTok(lex: Lex, tok: string, ch: char): string {
    if lex.IsFree() && ch == '"' then ""
    else if lex.IsFree() && !IsDelimiter(ch) && ch != '\\' then [ch]
    else tok + [ch]
  }

  // ---------- the forms that are open ----------

  // From the root to the current form; of each the items before the next open form.
  type Open = s: seq<seq<Tree>> | s != [] witness [[]]

  function Add(forms: Open, t: Tree): (r: Open)
    ensures |r| == |forms|
  {
    forms[..|forms| - 1] + [forms[|forms| - 1] + [t]]
  }

  function Close(forms: Open): (r: Open)
    requires |forms| > 1
    ensures |r| == |forms| - 1
  {
    Add(forms[..|forms| - 1], Seq(forms[|forms| - 1]))
  }

  // The root, when the open forms are closed as they are.
  function Root(forms: Open): Tree
    decreases |forms|
  {
    if |forms| == 1 then Seq(forms[0]) else Root(Close(forms))
  }

  datatype Lexer = Lexer(lex: Lex, tok: string, forms: Open, indent: int, failed: bool)

  const START := Lexer(Space, "", [[]], 0, false)

  // Takes over the value that has just been completed.
  function Fire(l: Lexer, lex: Lex, tok: string): Lexer {
    if l.failed then l
    else
      match lex
      case QstrOut => l.(forms := Add(l.forms, Str(Unescaped(tok))))
      case TokOut => l.(forms := Add(l.forms, Classified(tok)))
      case SeqIn => l.(forms := l.forms + [[]], indent := l.indent + 1)
      case SeqOut =>
        if l.indent <= 0 || |l.forms| <= 1 then l.(failed := true)
        else l.(forms := Close(l.forms), indent := l.indent - 1)
      case _ => l
  }

  // One character. After a failure nothing more is read.
  function Step(l: Lexer, ch: char): Lexer {
    if l.failed then l
    else
      var l1 := if EndsToken(l.lex, ch) then Fire(l, TokOut, l.tok) else l;
      var lex := NextLex(l.lex, ch);
      var l2 := if lex.FoundVal() then Fire(l1, lex, l.tok) else l1;
      if l2.failed then l2.(lex := lex) else l2.(lex := lex, tok := NextTok(l.lex, l.tok, ch))
  }

  function Run(l: Lexer, s: string): Lexer
    decreases |s|
  {
    if s == "" then l else Run(Step(l, s[0]), s[1..])
  }

  // The tree of a text: a root that holds its forms.
  function Parsed(s: string): Tree {
    Root(Run(START, s).forms)
  }

  // Feeding the text in pieces makes no difference.
  lemma {:induction false} RunAppend(l: Lexer, a: string, b: string)
    ensures Run(l, a + b) == Run(Run(l, a), b)
    decreases |a|
  {
    if a == "" {
      assert a + b == b;
    } else {
      assert (a + b)[1..] == a[1..] + b;
      RunAppend(Step(l, a[0]), a[1..], b);
    }
  }

  // After a failure nothing more is read.
  lemma {:induction false} FailedStays(l: Lexer, s: string)
    requires l.failed
    ensures Run(l, s) == l
    decreases |s|
  {
    if s != "" {
      FailedStays(l, s[1..]);
    }
  }

  // The indentation is the depth of the current form, and forms only close that were opened.
  ghost predicate Balanced(l: Lexer) {
    l.indent == |l.forms| - 1
  }

  lemma FireBalanced(l: Lexer, lex: Lex, tok: string)
    requires Balanced(l)
    ensures Balanced(Fire(l, lex, tok))
  {
  }

  lemma {:induction false} RunBalanced(l: Lexer, s: string)
    requires Balanced(l)
    ensures Balanced(Run(l, s))
    decreases |s|
  {
    hide Fire;
    if s != "" {
      if EndsToken(l.lex, s[0]) {
        FireBalanced(l, TokOut, l.tok);
        FireBalanced(Fire(l, TokOut, l.tok), NextLex(l.lex, s[0]), l.tok);
      } else {
        FireBalanced(l, NextLex(l.lex, s[0]), l.tok);
      }
      RunBalanced(Step(l, s[0]), s[1..]);
    }
  }

  // Every run fails exactly by closing a form at the root.
  lemma OnlyRootCloseFails(l: Lexer, ch: char)
    requires Balanced(l) && !l.failed
    ensures Step(l, ch).failed <==> NextLex(l.lex, ch) == SeqOut && |l.forms| == 1
  {
  }
}
