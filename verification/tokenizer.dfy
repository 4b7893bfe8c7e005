/**
 The form tokenizer: a character machine that builds a tree of linked data.
 */
module Tokenizers {
  import opened Forms

  // A datum: an atom, or a sequence whose items are added while it is the current form.
  class Datum {
    const isSeq: bool
    const atom: Tree
    var items: seq<Datum>
    var parent: Datum?

    constructor Atom(t: Tree)
      requires !t.Seq?
      ensures !isSeq && atom == t && items == [] && parent == null
    {
      isSeq, atom, items, parent := false, t, [], null;
    }

    constructor Sequence()
      ensures isSeq && items == [] && parent == null
    {
      isSeq, atom, items, parent := true, Void, [], null;
    }
  }

  // The tree below a datum.
  ghost predicate Represents(d: Datum, t: Tree, nodes: set<Datum>)
    reads nodes
    decreases t
  {
    && d in nodes
    && if d.isSeq then
         && t.Seq? && |t.items| == |d.items|
         && forall j :: 0 <= j < |d.items| ==> Represents(d.items[j], t.items[j], nodes)
       else t == d.atom && !t.Seq?
  }

  // The tree of the open form i and everything below it.
  function Below(forms: Open, i: nat): Tree
    requires i < |forms|
    decreases |forms| - i
  {
    Seq(forms[i] + if i + 1 < |forms| then [Below(forms, i + 1)] else [])
  }

  lemma {:induction false} BelowClose(forms: Open, i: nat)
    requires i + 1 < |forms|
    ensures Below(forms, i) == Below(Close(forms), i)
    decreases |forms| - i
  {
    var n := |forms|;
    assert Below(forms, n - 1) == Seq(forms[n - 1]) by {
      assert forms[n - 1] + [] == forms[n - 1];
    }
    if i + 2 < n {
      BelowClose(forms, i + 1);
    } else {
      assert forms[i] + [Seq(forms[n - 1])] + [] == forms[i] + [Seq(forms[n - 1])];
    }
  }

  lemma {:induction false} RootIsBelow(forms: Open)
    ensures Root(forms) == Below(forms, 0)
    decreases |forms|
  {
    if |forms| > 1 {
      BelowClose(forms, 0);
      RootIsBelow(Close(forms));
    } else {
      assert forms[0] + [] == forms[0];
    }
  }

  lemma RunLast(s: string, p: nat)
    requires p < |s|
    ensures Run(START, s[..p + 1]) == Step(Run(START, s[..p]), s[p])
  {
    hide Step;
    assert s[..p + 1] == s[..p] + [s[p]];
    RunAppend(START, s[..p], [s[p]]);
    assert [s[p]][1..] == "";
  }

  class Tokenizer {
    const root: Datum
    var form: Datum
    var state: Lex
    var indent: int
    // The buffer, the position in it, and where the current token begins.
    var buf: string
    var pos: nat
    var tokstart: nat
    // The open forms from the root to the current form, and the trees of the data that are complete.
    ghost var path: seq<Datum>
    ghost var trees: map<Datum, Tree>
    ghost var nodes: set<Datum>

    // The item d of a form belongs to the tree t.
    ghost predicate Holds(parent: Datum, d: Datum, t: Tree)
      reads this`trees, this`nodes, nodes
    {
      d in trees && trees[d] == t && d in nodes && d.parent == parent
    }

    // A complete datum has its tree.
    ghost predicate IsComplete(d: Datum)
      requires d in trees && trees.Keys <= nodes
      reads this`trees, this`nodes, nodes
    {
      if d.isSeq then
        && trees[d].Seq? && |trees[d].items| == |d.items|
        && forall j :: 0 <= j < |d.items| ==> Holds(d, d.items[j], trees[d].items[j])
      else trees[d] == d.atom && !d.atom.Seq?
    }

    // Complete data never change.
    ghost predicate Complete()
      reads this`trees, this`nodes, nodes
    {
      trees.Keys <= nodes && forall d :: d in trees ==> IsComplete(d)
    }

    // The open form i has the items of forms[i] and then the next open form.
    ghost predicate OpenAt(i: nat, items: seq<Tree>)
      requires i < |path|
      reads this`path, this`trees, this`nodes, nodes
    {
      && path[i] in nodes && path[i].isSeq && path[i] !in trees
      && |path[i].items| == |items| + (if i + 1 < |path| then 1 else 0)
      && (forall j :: 0 <= j < |items| ==> Holds(path[i], path[i].items[j], items[j]))
      && (i + 1 < |path| ==>
            path[i].items[|items|] == path[i + 1] && path[i + 1] in nodes && path[i + 1].parent == path[i])
    }

    ghost predicate Linked(forms: Open)
      reads this`form, this`path, this`trees, this`nodes, nodes
    {
      && Complete()
      && |path| == |forms| && path[0] == root && form == path[|path| - 1]
      && (root in nodes ==> root.parent == null)
      && (forall i :: 0 <= i < |path| ==> OpenAt(i, forms[i]))
      && (forall i, j :: 0 <= i < j < |path| ==> path[i] != path[j])
    }

    lemma FormIsNode(forms: Open)
      requires Linked(forms)
      ensures form in nodes
    {
      assert OpenAt(|path| - 1, forms[|path| - 1]);
    }

    // Every representation of the complete data and of the open forms.
    lemma {:induction false} CompleteRepresents(d: Datum)
      requires Complete() && d in trees
      ensures Represents(d, trees[d], nodes)
      decreases trees[d]
    {
      if d.isSeq {
        forall j | 0 <= j < |d.items| ensures Represents(d.items[j], trees[d].items[j], nodes) {
          assert Holds(d, d.items[j], trees[d].items[j]);
          CompleteRepresents(d.items[j]);
        }
      }
    }

    lemma {:induction false} OpenRepresents(forms: Open, i: nat)
      requires Linked(forms) && i < |forms|
      ensures Represents(path[i], Below(forms, i), nodes)
      decreases |forms| - i
    {
      var t := Below(forms, i);
      assert OpenAt(i, forms[i]);
      if i + 1 < |forms| {
        OpenRepresents(forms, i + 1);
      }
      forall j | 0 <= j < |path[i].items| ensures Represents(path[i].items[j], t.items[j], nodes) {
        if j < |forms[i]| {
          assert Holds(path[i], path[i].items[j], forms[i][j]);
          CompleteRepresents(path[i].items[j]);
        }
      }
    }

    constructor ()
      ensures Linked(START.forms) && state == START.lex && indent == START.indent
      ensures buf == "" && pos == 0 && tokstart == 0 && fresh(nodes)
    {
      var r := new Datum.Sequence();
      root, form := r, r;
      state, indent, buf, pos, tokstart := Space, 0, "", 0, 0;
      path, trees, nodes := [r], map[], {r};
    }

    // Adds a complete atom to the current form.
    method AddAtom(t: Tree, ghost forms: Open)
      requires Linked(forms) && !t.Seq?
      modifies form`items, this`trees, this`nodes
      ensures Linked(Add(forms, t)) && fresh(nodes - old(nodes))
    {
      hide Add;
      var d := new Datum.Atom(t);
      ghost var n := |path| - 1;
      assert OpenAt(n, forms[n]);
      d.parent := form;
      form.items := form.items + [d];
      trees := trees[d := t];
      nodes := nodes + {d};
      assert Complete() by {
        forall x | x in old(trees) ensures IsComplete(x) {
          assert old(IsComplete(x));
        }
      }
      assert OpenAt(n, forms[n] + [t]);
      assert forall i :: 0 <= i < n ==> OpenAt(i, forms[i]) by {
        forall i | 0 <= i < n ensures OpenAt(i, forms[i]) {
          assert old(OpenAt(i, forms[i]));
        }
      }
      LinkedAfter(forms, t);
    }

    lemma LinkedAfter(forms: Open, t: Tree)
      requires Complete() && |path| == |forms| && path[0] == root && form == path[|path| - 1]
      requires root in nodes ==> root.parent == null
      requires OpenAt(|forms| - 1, forms[|forms| - 1] + [t])
      requires forall i :: 0 <= i < |forms| - 1 ==> OpenAt(i, forms[i])
      requires forall i, j :: 0 <= i < j < |path| ==> path[i] != path[j]
      ensures Linked(Add(forms, t))
    {
      hide Add, OpenAt, Complete;
      AddedAt(forms, t);
    }

    lemma AddedAt(forms: Open, t: Tree)
      ensures var n := |forms| - 1;
              Add(forms, t)[n] == forms[n] + [t] && forall i :: 0 <= i < n ==> Add(forms, t)[i] == forms[i]
    {
    }

    // Adds an empty sequence, which becomes the current form.
    method OpenSequence(ghost forms: Open)
      requires Linked(forms)
      modifies form`items, this`form, this`path, this`nodes
      ensures Linked(forms + [[]]) && fresh(nodes - old(nodes))
    {
      var d := new Datum.Sequence();
      ghost var n := |path| - 1;
      assert OpenAt(n, forms[n]);
      d.parent := form;
      form.items := form.items + [d];
      form := d;
      path := path + [d];
      nodes := nodes + {d};
      forall x | x in old(trees) ensures IsComplete(x) {
        assert old(IsComplete(x));
      }
      forall i | 0 <= i < |path| ensures OpenAt(i, (forms + [[]])[i]) {
        if i <= n {
          assert old(OpenAt(i, forms[i]));
        }
      }
    }

    // The parent becomes the current form.
    method CloseSequence(ghost forms: Open)
      requires Linked(forms) && |forms| > 1
      modifies this`form, this`path, this`trees
      ensures Linked(Close(forms))
    {
      ghost var n := |path| - 1;
      assert OpenAt(n, forms[n]) && OpenAt(n - 1, forms[n - 1]);
      assert form.parent != null;
      trees := trees[form := Seq(forms[n])];
      path := path[..n];
      form := form.parent;
      forall i | 0 <= i < |path| ensures OpenAt(i, Close(forms)[i]) {
        assert old(OpenAt(i, forms[i]));
      }
    }

    // The machine has come as far as the lexer l.
    ghost predicate At(l: Lexer)
      reads this, nodes
    {
      && !l.failed && Balanced(l) && Linked(l.forms)
      && state == l.lex && indent == l.indent
      && tokstart <= pos <= |buf| && buf[tokstart..pos] == l.tok
    }

    // Takes over the value that ends before the position.
    method CompileValue(lex: Lex, ghost l: Lexer) returns (ok: bool)
      requires !l.failed && Balanced(l) && Linked(l.forms) && indent == l.indent
      requires tokstart <= pos <= |buf| && buf[tokstart..pos] == l.tok
      modifies this`form, this`indent, this`path, this`trees, this`nodes, form`items
      ensures var r := Fire(l, lex, l.tok);
              && (ok <==> !r.failed) && Balanced(r) && Linked(r.forms) && (ok ==> indent == r.indent)
      ensures fresh(nodes - old(nodes)) && (lex == TokOut ==> form == old(form))
    {
      hide Classified, Unescaped, Linked, Add, Close;
      ok := true;
      match lex {
        case QstrOut =>
          var text := Unescape(buf[tokstart..pos]);
          AddAtom(Str(text), l.forms);
        case TokOut =>
          var t := Classify(buf[tokstart..pos]);
          AddAtom(t, l.forms);
        case SeqIn =>
          indent := indent + 1;
          OpenSequence(l.forms);
        case SeqOut =>
          if indent <= 0 {
            return false;
          }
          indent := indent - 1;
          CloseSequence(l.forms);
        case _ =>
      }
    }

    // The value of a token that is followed by a parenthesis or a comment.
    method EndToken(ghost l: Lexer)
      requires At(l)
      modifies this`state, this`form, this`indent, this`path, this`trees, this`nodes, form`items
      ensures var r := Fire(l, TokOut, l.tok);
              !r.failed && Balanced(r) && Linked(r.forms) && indent == r.indent
      ensures state == TokOut && form == old(form) && fresh(nodes - old(nodes))
    {
      hide Linked, Classified;
      state := TokOut;
      var ok := CompileValue(state, l);
    }

    // The lexer after the value, if any, that the character ends.
    ghost function Ended(l: Lexer, ch: char): Lexer {
      if EndsToken(l.lex, ch) then Fire(l, TokOut, l.tok) else l
    }

    // Moves to the next state, and says where the token begins now.
    method Transition(ghost l: Lexer) returns (start: nat)
      requires At(l) && pos < |buf|
      modifies this`state, this`form, this`indent, this`path, this`trees, this`nodes, form`items
      ensures state == NextLex(l.lex, buf[pos])
      ensures start == TokenStart(l.lex, buf[pos], tokstart, pos)
      ensures var r := Ended(l, buf[pos]); !r.failed && Balanced(r) && Linked(r.forms) && indent == r.indent
      ensures form == old(form) && fresh(nodes - old(nodes))
    {
      hide Linked, Fire;
      var ch := buf[pos];
      start := tokstart;
      if ch == '(' {
        if state.IsFree() {
          state := SeqIn;
        } else if state.IsTok() {
          EndToken(l);
          state := SeqIn;
        } else if state.IsQstr() {
          state := QstrMid;
        } else if state == ComIn {
          state := ComMid;
        }
      } else if ch == ')' {
        if state.IsFree() {
          state := SeqOut;
        } else if state.IsTok() {
          EndToken(l);
          state := SeqOut;
        } else if state.IsQstr() {
          state := QstrMid;
        } else if state == ComIn {
          state := ComMid;
        }
      } else if IsBlank(ch) {
        if state.IsSeq() || state.IsOut() {
          state := Space;
        } else if state.IsTok() {
          state := TokOut;
        } else if state.IsQstr() {
          state := QstrMid;
        } else if state == ComIn {
          state := ComMid;
        }
      } else if IsEol(ch) {
        if state.IsSeq() || state.IsOut() {
          state := Space;
        } else if state.IsTok() {
          state := TokOut;
        } else if state.IsQstr() {
          state := QstrMid;
        } else if state.IsCom() {
          state := ComOut;
        }
      } else if ch == '"' {
        if state.IsFree() {
          state := QstrIn;
          start := pos + 1;
        } else if state == QstrEsc {
          state := QstrMid;
        } else if state == QstrIn || state == QstrMid {
          state := QstrOut;
        } else if state == ComIn {
          state := ComMid;
        }
      } else if ch == '\\' {
        if state == QstrIn || state == QstrMid {
          state := QstrEsc;
        } else if state == QstrEsc {
          state := QstrMid;
        }
      } else if ch == ';' {
        if state.IsFree() {
          state := ComIn;
        } else if state.IsTok() {
          EndToken(l);
          state := ComIn;
        } else if state.IsQstr() {
          state := QstrMid;
        } else if state == ComIn {
          state := ComMid;
        }
      } else {
        if state.IsFree() {
          state := TokIn;
          start := pos;
        } else if state == TokIn {
          state := TokMid;
        } else if state.IsQstr() {
          state := QstrMid;
        } else if state == ComIn {
          state := ComMid;
        }
      }
    }

    // One character.
    method Advance(ghost l: Lexer) returns (ok: bool)
      requires At(l) && pos < |buf|
      modifies this, form`items
      ensures buf == old(buf) && fresh(nodes - old(nodes))
      ensures ok ==> pos == old(pos) + 1 && At(Step(l, buf[old(pos)]))
      ensures !ok ==> pos == old(pos) && Step(l, buf[pos]).failed && Linked(Step(l, buf[pos]).forms)
    {
      hide Linked, Fire, NextLex, NextTok, TokenStart, EndsToken;
      ghost var ch := buf[pos];
      var start := Transition(l);
      ghost var l1 := Ended(l, ch);
      FireKeepsTok(l, TokOut, l.tok);
      FireKeepsTok(l1, state, l.tok);
      ok := true;
      if state.FoundVal() {
        ok := CompileValue(state, l1);
        if !ok {
          return false;
        }
      }
      NewToken(buf, tokstart, pos, l.lex, l.tok);
      tokstart := start;
      pos := pos + 1;
    }

    // All characters in the buffer, up to a failure.
    method Tokenize(ghost l: Lexer) returns (ok: bool, ghost r: Lexer)
      requires At(l) && l == Run(START, buf[..pos])
      modifies this, nodes
      ensures buf == old(buf) && fresh(nodes - old(nodes)) && pos <= |buf|
      ensures ok ==> pos == |buf| && r == Run(START, buf) && At(r)
      ensures !ok ==> pos < |buf| && r == Run(START, buf) && r.failed && Linked(r.forms)
    {
      hide Step, Run, Linked, Fire, Balanced;
      ok := true;
      r := l;
      while pos < |buf|
        invariant buf == old(buf) && fresh(nodes - old(nodes)) && pos <= |buf|
        invariant r == Run(START, buf[..pos]) && At(r)
      {
        RunLast(buf, pos);
        FormIsNode(r.forms);
        ghost var p := pos;
        ok := Advance(r);
        r := Step(r, buf[p]);
        if !ok {
          FailedStays(r, buf[p + 1..]);
          RunAppend(START, buf[..p + 1], buf[p + 1..]);
          assert buf == buf[..p + 1] + buf[p + 1..];
          return;
        }
      }
      assert buf[..pos] == buf;
    }
  }

  // Where the current token begins after a character.
  function TokenStart(lex: Lex, ch: char, tokstart: nat, pos: nat): nat {
    if lex.IsFree() && ch == '"' then pos + 1
    else if lex.IsFree() && !IsDelimiter(ch) && ch != '\\' then pos
    else tokstart
  }

  lemma FireKeepsTok(l: Lexer, lex: Lex, tok: string)
    ensures var r := Fire(l, lex, tok); r.tok == l.tok && r.lex == l.lex && (lex != SeqOut ==> r.failed == l.failed)
  {
  }

  // The text since the token's first character, when the position moves on.
  lemma NewToken(buf: string, tokstart: nat, pos: nat, lex: Lex, tok: string)
    requires tokstart <= pos < |buf| && tok == buf[tokstart..pos]
    ensures var start := TokenStart(lex, buf[pos], tokstart, pos);
            start <= pos + 1 && buf[start..pos + 1] == NextTok(lex, tok, buf[pos])
  {
  }

  // What is left to be unescaped from position i on.
  function RestFrom(s: string, i: nat): string {
    if i < |s| then Unescaped(s[i..]) else ""
  }

  lemma RestStep(s: string, i: nat)
    requires i < |s|
    ensures s[i] != '\\' ==> RestFrom(s, i) == [s[i]] + RestFrom(s, i + 1)
    ensures s[i] == '\\' && i + 1 < |s| ==> RestFrom(s, i) == [EscapedChar(s[i + 1])] + RestFrom(s, i + 2)
    ensures s[i] == '\\' && i + 1 == |s| ==> RestFrom(s, i) == RestFrom(s, i + 2)
  {
    hide EscapedChar;
    assert s[i..][1..] == s[i + 1..];
    if i + 1 < |s| {
      assert s[i..][1] == s[i + 1] && s[i..][2..] == s[i + 2..];
      assert i + 2 == |s| ==> s[i + 2..] == "";
    } else {
      assert s[i + 1..] == "";
    }
    assert Unescaped("") == "";
  }

  lemma RestEnds(s: string, i: nat)
    ensures RestFrom(s, 0) == Unescaped(s) && (i >= |s| ==> RestFrom(s, i) == "")
  {
    assert s[0..] == s;
    assert Unescaped("") == "";
  }

  lemma PushChar(done: string, ch: char, rest: string)
    ensures done + ([ch] + rest) == (done + [ch]) + rest
  {
  }

  method Unescape(src: string) returns (text: string)
    ensures text == Unescaped(src)
  {
    hide Unescaped, EscapedChar, RestFrom;
    var dst := new char[|src| + 1];
    var i, j := 0, 0;
    ghost var done := "";
    RestEnds(src, 0);
    while i < |src|
      invariant 0 <= j <= i <= |src| + 1 && j <= |src|
      invariant dst[..j] == done && Unescaped(src) == done + RestFrom(src, i)
    {
      RestStep(src, i);
      var ch := src[i];
      if ch == '\\' {
        i := i + 1;
        if i < |src| {
          dst[j] := EscapedChar(src[i]);
          j := j + 1;
          PushChar(done, EscapedChar(src[i]), RestFrom(src, i + 1));
          done := done + [EscapedChar(src[i])];
        }
      } else {
        dst[j] := ch;
        j := j + 1;
        PushChar(done, ch, RestFrom(src, i + 1));
        done := done + [ch];
      }
      i := i + 1;
    }
    RestEnds(src, i);
    dst[j] := '\0';
    text := dst[..j];
  }

  datatype NumKind = NoNumber | IntNumber | FloatNumber

  method Classify(s: string) returns (t: Tree)
    ensures t == Classified(s) && !t.Seq?
  {
    var numkind := NoNumber;
    if |s| > 1 {
      var ch := s[0];
      if ch == '+' || ch == '-' || IsDigit(ch) {
        numkind := IntNumber;
        var i := 1;
        while i < |s|
          invariant 1 <= i <= |s| && numkind != NoNumber
          invariant forall k :: 1 <= k < i ==> IsDigit(s[k]) || s[k] == '.'
          invariant numkind == FloatNumber <==> exists k :: 1 <= k < i && s[k] == '.'
        {
          if s[i] == '.' {
            numkind := FloatNumber;
          } else if s[i] < '0' || s[i] > '9' {
            numkind := NoNumber;
            break;
          }
          i := i + 1;
        }
        assert numkind == NoNumber ==> i < |s| && !IsDigit(s[i]) && s[i] != '.';
      } else if |s| == 2 && ch == '#' {
        ch := s[1];
        assert s == ['#', ch];
        if ch == 't' {
          return Bool(true);
        } else if ch == 'f' {
          return Bool(false);
        } else if ch == 'v' {
          return Void;
        } else if ch == 'n' {
          return Null;
        }
      }
    } else if |s| == 1 && IsDigit(s[0]) {
      numkind := IntNumber;
    }
    Kinds(s);
    match numkind {
      case IntNumber => t := Int(IntegerOf(s));
      case FloatNumber => t := Float(s);
      case NoNumber => t := Word(s);
    }
  }

  lemma Kinds(s: string)
    ensures IsInteger(s) && |s| > 1 ==> '.' !in s[1..]
    ensures forall k :: 1 <= k < |s| && s[k] == '.' ==> '.' in s[1..]
    ensures |s| > 1 && '.' in s[1..] ==> exists k :: 1 <= k < |s| && s[k] == '.'
  {
  }

  // Reads a whole input, in chunks of any size, and builds its tree.
  method Parse(input: string) returns (root: Datum, ghost nodes: set<Datum>)
    ensures Represents(root, Parsed(input), nodes)
  {
    hide Step, Root, Below, Run;
    var t := new Tokenizer();
    var off := 0;
    ghost var l := START;
    var ok := true;
    StartAt(t.buf);
    while t.pos >= |t.buf|
      invariant fresh(t) && fresh(t.nodes) && off <= |input| && t.buf == input[..off] && t.pos <= |t.buf|
      invariant l == Run(START, t.buf)
      invariant ok ==> t.At(l) && t.pos == |t.buf|
      invariant !ok ==> t.pos < |t.buf| && l.failed && t.Linked(l.forms)
      decreases |input| - off
    {
      if off == |input| {
        break;
      }
      var n :| 0 < n <= |input| - off;
      ghost var before := t.buf;
      t.buf := t.buf + input[off..off + n];
      off := off + n;
      assert t.buf[..t.pos] == before;
      ok, l := t.Tokenize(l);
    }
    if l.failed {
      FailedStays(l, input[off..]);
    }
    RunAppend(START, t.buf, input[off..]);
    assert input == input[..off] + input[off..];
    RunNone(l);
    RootIsBelow(l.forms);
    t.OpenRepresents(l.forms, 0);
    root, nodes := t.root, t.nodes;
  }

  lemma RunNone(l: Lexer)
    ensures Run(l, "") == l
  {
  }

  lemma StartAt(s: string)
    requires s == ""
    ensures Run(START, s) == START && Balanced(START)
  {
  }
}
