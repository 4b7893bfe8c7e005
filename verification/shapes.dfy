/**
 Types as values: their shapes, their printed form, and how a form is parsed as a type.
 */
module Shapes {
  import opened Basics
  import opened Forms
  import opened Printing

  datatype Tag =
    | TUndef | TIr | TTy | TVoid | TNull
    | TInt | TIntMin | TIntMax | TStr | TFloat | TFloatMin | TFloatMax | TBool | TAny | TVararg
    | TArray | TDict | TStruct | TFunc | TParser

  const BUILTINS: seq<Tag> :=
    [TUndef, TIr, TTy, TVoid, TNull, TInt, TIntMin, TIntMax, TStr, TFloat, TFloatMin, TFloatMax, TBool, TAny, TVararg]

  predicate IsBuiltin(tag: Tag) {
    !(tag.TArray? || tag.TDict? || tag.TStruct? || tag.TFunc? || tag.TParser?)
  }

  // The builtin types that can be named: all but the four minima and maxima.
  predicate Named(tag: Tag) {
    IsBuiltin(tag) && !(tag.TIntMin? || tag.TIntMax? || tag.TFloatMin? || tag.TFloatMax?)
  }

  function TagName(tag: Tag): string {
    match tag
    case TUndef => "undef"
    case TIr => "ir"
    case TTy => "ty"
    case TVoid => "void"
    case TNull => "null"
    case TInt => "int"
    case TIntMin => "intm"
    case TIntMax => "intM"
    case TStr => "str"
    case TFloat => "float"
    case TFloatMin => "floatm"
    case TFloatMax => "floatM"
    case TBool => "bool"
    case TAny => "any"
    case TVararg => "..."
    case TArray => "array"
    case TDict => "dict"
    case TStruct => "struct"
    case TFunc => "func"
    case TParser => "parser"
  }

  datatype Shape = Shape(tag: Tag, fields: seq<Shape>, names: seq<Option<string>>)

  // The shapes the program makes: one element type; every field of a struct named; a name or none for every
  // parameter.
  ghost predicate Ok(s: Shape) {
    && (match s.tag
        case TArray => |s.fields| == 1 && s.names == []
        case TDict => |s.fields| == 1 && s.names == []
        case TParser => |s.fields| == 1 && s.names == []
        case TStruct => |s.names| == |s.fields| && forall i :: 0 <= i < |s.names| ==> s.names[i].Some?
        case TFunc => |s.names| == |s.fields|
        case _ => s.fields == [] && s.names == [])
    && forall i :: 0 <= i < |s.fields| ==> Ok(s.fields[i])
  }

  function Builtin(tag: Tag): Shape {
    Shape(tag, [], [])
  }

  // ---------- printed form ----------

  const NAME_MAX := 1023

  // A field's name is written with a size limit.
  function FieldOpen(name: string): string {
    var s := "(" + name + " ";
    if |s| <= NAME_MAX then s else s[..NAME_MAX]
  }

  // The names of parameters are not printed.
  function Print(s: Shape): string {
    if IsBuiltin(s.tag) then TagName(s.tag) + " "
    else "(" + TagName(s.tag) + " " + PrintFields(s.fields, if s.tag.TStruct? then s.names else []) + ") "
  }

  function PrintFields(fields: seq<Shape>, names: seq<Option<string>>): string {
    if fields == [] then ""
    else
      (if names != [] && names[0].Some? then FieldOpen(names[0].value) + Print(fields[0]) + ") " else Print(fields[0]))
      + PrintFields(fields[1..], if names == [] then [] else names[1..])
  }

  // ---------- parsing a form ----------

  function SimpleTag(word: string): Option<Tag> {
    if word == "undef" then Some(TUndef)
    else if word == "ir" then Some(TIr)
    else if word == "ty" then Some(TTy)
    else if word == "void" then Some(TVoid)
    else if word == "null" then Some(TNull)
    else if word == "int" then Some(TInt)
    else if word == "str" then Some(TStr)
    else if word == "float" then Some(TFloat)
    else if word == "bool" then Some(TBool)
    else if word == "any" then Some(TAny)
    else if word == "..." then Some(TVararg)
    else None
  }

  // Inside another type, a parser stands for the type it parses.
  function Unwrapped(s: Shape): Shape {
    if s.tag.TParser? && |s.fields| == 1 then s.fields[0] else s
  }

  type Typedefs = map<string, Shape>

  function ParseShape(t: Tree, defs: Typedefs): Option<Shape>
    decreases t, 2
  {
    match t
    case Word(w) =>
      if SimpleTag(w).Some? then Some(Builtin(SimpleTag(w).value))
      else if w in defs then Some(defs[w])
      else None
    case Seq(items) =>
      if items == [] || !items[0].Word? then None
      else if items[0].word == "array" || items[0].word == "dict" then
        if |items| == 1 then None
        else
          var e := ParseShape(items[1], defs);
          if e.None? then None
          else Some(Shape(if items[0].word == "array" then TArray else TDict, [Unwrapped(e.value)], []))
      else if items[0].word == "struct" then ParseStruct(items, 1, defs)
      else if items[0].word == "func" then
        var f := ParseFunc(items, 1, defs);
        if f.None? || f.value.fields == [] then None else f
      else None
    case _ => None
  }

  // The fields from number i on.
  function ParseStruct(items: seq<Tree>, i: nat, defs: Typedefs): Option<Shape>
    decreases items, |items| - i
  {
    if i >= |items| then Some(Shape(TStruct, [], []))
    else
      var f := ParseNamed(items[i], defs);
      var rest := ParseStruct(items, i + 1, defs);
      if f.None? || rest.None? then None
      else Some(Shape(TStruct, [f.value.1] + rest.value.fields, [Some(f.value.0)] + rest.value.names))
  }

  // A name and a type.
  function ParseNamed(t: Tree, defs: Typedefs): Option<(string, Shape)>
    decreases t, 1
  {
    if !t.Seq? || t.items == [] || !t.items[0].Word? || |t.items| == 1 then None
    else
      var e := ParseShape(t.items[1], defs);
      if e.None? then None else Some((t.items[0].word, Unwrapped(e.value)))
  }

  // The result and the parameters from number i on; a parameter is a type, or a name and a type.
  function ParseFunc(items: seq<Tree>, i: nat, defs: Typedefs): Option<Shape>
    decreases items, |items| - i
  {
    if i >= |items| then Some(Shape(TFunc, [], []))
    else
      var e := ParseShape(items[i], defs);
      var named := ParseNamed(items[i], defs);
      var rest := ParseFunc(items, i + 1, defs);
      if rest.None? then None
      else if e.Some? then Some(Shape(TFunc, [e.value] + rest.value.fields, [None] + rest.value.names))
      else if named.Some? then
        Some(Shape(TFunc, [named.value.1] + rest.value.fields, [Some(named.value.0)] + rest.value.names))
      else None
  }

  // ---------- printed types are parsed back ----------

  // A name that is a word and is printed whole.
  ghost predicate IsName(w: string) {
    IsWord(w) && |w| <= 1021
  }

  // Of a longer name the first 1022 characters are printed.
  lemma LongNamesCut(name: string)
    requires |name| >= 1022
    ensures FieldOpen(name) == "(" + name[..1022]
  {
    var s := "(" + name + " ";
    assert s[..1023] == "(" + name[..1022];
  }

  // The types whose printed form can be read: names are words, and no parameter has one.
  ghost predicate Legible(s: Shape) {
    && (match s.tag
        case TArray => |s.fields| == 1 && s.names == []
        case TDict => |s.fields| == 1 && s.names == []
        case TParser => |s.fields| == 1 && s.names == []
        case TStruct =>
          && |s.names| == |s.fields|
          && forall i :: 0 <= i < |s.names| ==> s.names[i].Some? && IsName(s.names[i].value)
        case TFunc => |s.names| == |s.fields| && forall i :: 0 <= i < |s.names| ==> s.names[i].None?
        case _ => s.fields == [] && s.names == [])
    && forall i :: 0 <= i < |s.fields| ==> Legible(s.fields[i])
  }

  // Of these, the types that can be parsed: builtin types that can be named, no parsers, functions with a result.
  ghost predicate Writable(s: Shape) {
    && Legible(s) && !s.tag.TParser? && (s.tag.TFunc? ==> s.fields != []) && (IsBuiltin(s.tag) ==> Named(s.tag))
    && forall i :: 0 <= i < |s.fields| ==> Writable(s.fields[i])
  }

  // The form of a type.
  function FormOf(s: Shape): Tree {
    if IsBuiltin(s.tag) then Word(TagName(s.tag))
    else Seq([Word(TagName(s.tag))] + FormsOf(s.fields, if s.tag.TStruct? then s.names else []))
  }

  function FormsOf(fields: seq<Shape>, names: seq<Option<string>>): (r: seq<Tree>)
    ensures |r| == |fields|
  {
    if fields == [] then []
    else
      [if names != [] && names[0].Some? then Seq([Word(names[0].value), FormOf(fields[0])]) else FormOf(fields[0])]
      + FormsOf(fields[1..], if names == [] then [] else names[1..])
  }

  predicate IsLetter(ch: char) {
    'a' <= ch <= 'z' || ch == 'M' || ch == '.'
  }

  lemma LettersAreWord(w: string)
    requires w != "" && forall k :: 0 <= k < |w| ==> IsLetter(w[k])
    ensures IsToken(w) && Classified(w) == Word(w)
  {
  }

  lemma TagIsToken(tag: Tag)
    ensures IsToken(TagName(tag)) && Classified(TagName(tag)) == Word(TagName(tag))
  {
    hide IsToken, Classified;
    LettersAreWord(TagName(tag));
  }

  // Between forms, with nothing pending.
  ghost predicate Clear(l: Lexer) {
    Idle(l) && l.lex.IsFree()
  }

  // A word and the space behind it.
  lemma WordRun(l: Lexer, w: string)
    requires Clear(l) && IsToken(w) && Classified(w) == Word(w)
    ensures var r := Run(l, w + " "); Clear(r) && r.forms == Add(l.forms, Word(w))
  {
    hide Run, Idle, IsToken, Classified, Add;
    TokenRun(l, w);
    BlankStep(Run(l, w), ' ');
    RunAppend(l, w, " ");
  }

  // Opening a form with a word.
  lemma HeadRun(l: Lexer, w: string)
    requires Clear(l) && IsToken(w) && Classified(w) == Word(w)
    ensures var r := Run(l, "(" + w + " "); Clear(r) && r.forms == l.forms + [[Word(w)]]
  {
    hide Run, Idle, IsToken, Classified, Add;
    FreeSettled(l);
    OpenStep(l);
    WordRun(Run(l, "("), w);
    RunAppend(l, "(", w + " ");
    assert "(" + w + " " == "(" + (w + " ");
    AddToNew(l.forms, Word(w));
  }

  lemma AddToNew(forms: Open, t: Tree)
    ensures Add(forms + [[]], t) == forms + [[t]]
  {
    assert (forms + [[]])[..|forms|] == forms;
    assert [] + [t] == [t];
  }

  // Closing a form, with the space behind it.
  lemma TailRun(l: Lexer, forms: Open, items: seq<Tree>)
    requires Clear(l) && l.forms == forms + [items]
    ensures var r := Run(l, ") "); Clear(r) && r.forms == Add(forms, Seq(items))
  {
    hide Run, Idle, Add;
    FreeSettled(l);
    CloseStep(l);
    var l1 := Run(l, ")");
    FreeSettled(l1);
    BlankStep(l1, ' ');
    RunAppend(l, ")", " ");
    assert ")" + " " == ") ";
    CloseLast(forms, items);
  }

  lemma CloseLast(forms: Open, items: seq<Tree>)
    ensures Close(forms + [items]) == Add(forms, Seq(items))
  {
    assert (forms + [items])[..|forms|] == forms;
  }

  lemma {:induction false} PrintRun(s: Shape, l: Lexer)
    requires Legible(s) && Clear(l)
    ensures var r := Run(l, Print(s)); Clear(r) && r.forms == Add(l.forms, FormOf(s))
    decreases s, 1
  {
    hide Run, Add, Clear, IsName, IsToken, Classified;
    TagIsToken(s.tag);
    if IsBuiltin(s.tag) {
      WordRun(l, TagName(s.tag));
    } else {
      var names := if s.tag.TStruct? then s.names else [];
      var head, inner := "(" + TagName(s.tag) + " ", PrintFields(s.fields, names);
      HeadRun(l, TagName(s.tag));
      var l1 := Run(l, head);
      FieldsRun(s.fields, names, l.forms, [Word(TagName(s.tag))], l1);
      RunAppend(l, head, inner);
      var l2 := Run(l1, inner);
      TailRun(l2, l.forms, [Word(TagName(s.tag))] + FormsOf(s.fields, names));
      RunAppend(l, head + inner, ") ");
      assert Print(s) == head + inner + ") ";
    }
  }

  // The fields of a type that is being read.
  lemma {:induction false} FieldsRun(fields: seq<Shape>, names: seq<Option<string>>, forms: Open, items: seq<Tree>,
                                     l: Lexer)
    requires Clear(l) && l.forms == forms + [items]
    requires forall i :: 0 <= i < |fields| ==> Legible(fields[i])
    requires names == [] || |names| == |fields|
    requires forall i :: 0 <= i < |names| ==> names[i].Some? && IsName(names[i].value)
    ensures var r := Run(l, PrintFields(fields, names)); Clear(r) && r.forms == forms + [items + FormsOf(fields, names)]
    decreases fields, 0
  {
    hide Run, Add, Clear, IsName, Print, FormOf, Legible, FieldOpen;
    if fields == [] {
      RunNothing(l);
      assert items + FormsOf(fields, names) == items;
    } else {
      var rest := if names == [] then [] else names[1..];
      var text := if names != [] then FieldOpen(names[0].value) + Print(fields[0]) + ") " else Print(fields[0]);
      var t := if names != [] then Seq([Word(names[0].value), FormOf(fields[0])]) else FormOf(fields[0]);
      assert PrintFields(fields, names) == text + PrintFields(fields[1..], rest);
      assert FormsOf(fields, names) == [t] + FormsOf(fields[1..], rest);
      if names != [] {
        FieldRun(fields[0], names[0].value, l);
      } else {
        PrintRun(fields[0], l);
      }
      var l1 := Run(l, text);
      AddToLast(forms, items, t);
      RunAppend(l, text, PrintFields(fields[1..], rest));
      TailFits(fields, names);
      FieldsRun(fields[1..], rest, forms, items + [t], l1);
      Regroup(items, t, FormsOf(fields[1..], rest));
    }
  }

  lemma TailFits(fields: seq<Shape>, names: seq<Option<string>>)
    requires fields != [] && (names == [] || |names| == |fields|)
    requires forall i :: 0 <= i < |fields| ==> Legible(fields[i])
    requires forall i :: 0 <= i < |names| ==> names[i].Some? && IsName(names[i].value)
    ensures var rest := if names == [] then [] else names[1..];
            && (rest == [] || |rest| == |fields[1..]|)
            && (forall i :: 0 <= i < |fields[1..]| ==> Legible(fields[1..][i]))
            && (forall i :: 0 <= i < |rest| ==> rest[i].Some? && IsName(rest[i].value))
  {
    hide Legible, IsName;
  }

  lemma Regroup(items: seq<Tree>, t: Tree, more: seq<Tree>)
    ensures items + [t] + more == items + ([t] + more)
  {
  }

  lemma AddToLast(forms: Open, items: seq<Tree>, t: Tree)
    ensures Add(forms + [items], t) == forms + [items + [t]]
  {
    assert (forms + [items])[..|forms|] == forms;
  }

  // A named field.
  lemma {:induction false} FieldRun(s: Shape, name: string, l: Lexer)
    requires Legible(s) && Clear(l) && IsName(name)
    ensures var r := Run(l, FieldOpen(name) + Print(s) + ") ");
            Clear(r) && r.forms == Add(l.forms, Seq([Word(name), FormOf(s)]))
    decreases s, 2
  {
    hide Run, Add, Clear, Print, FormOf, Legible, Classified, IsDelimiter;
    var open := FieldOpen(name);
    assert open == "(" + name + " ";
    HeadRun(l, name);
    var l1 := Run(l, open);
    PrintRun(s, l1);
    AddToLast(l.forms, [Word(name)], FormOf(s));
    RunAppend(l, open, Print(s));
    var l2 := Run(l1, Print(s));
    assert [Word(name)] + [FormOf(s)] == [Word(name), FormOf(s)];
    TailRun(l2, l.forms, [Word(name), FormOf(s)]);
    RunAppend(l, open + Print(s), ") ");
  }

  // The text of a type is the text of its form.
  lemma PrintedForm(s: Shape)
    requires Legible(s)
    ensures Parsed(Print(s)) == Seq([FormOf(s)])
  {
    hide Run, Idle, Print, FormOf, Legible;
    StartIdle();
    PrintRun(s, START);
    AddFirst(FormOf(s));
  }

  // ---------- forms that are types ----------

  // A word is the builtin type it names, and otherwise what it is defined as.
  lemma WordParsed(w: string, defs: Typedefs)
    ensures forall tag :: Named(tag) && w == TagName(tag) ==> ParseShape(Word(w), defs) == Some(Builtin(tag))
    ensures (forall tag :: Named(tag) ==> w != TagName(tag)) ==>
              ParseShape(Word(w), defs) == if w in defs then Some(defs[w]) else None
  {
    hide TagName;
    forall tag ensures SimpleTag(w) == Some(tag) <==> Named(tag) && w == TagName(tag) {
      SimpleTagExactly(w, tag);
    }
    if SimpleTag(w).Some? {
      assert w == TagName(SimpleTag(w).value);
    }
  }

  lemma SimpleTagExactly(w: string, tag: Tag)
    ensures SimpleTag(w) == Some(tag) <==> Named(tag) && w == TagName(tag)
  {
  }

  // These words begin a type.
  predicate IsHead(w: string) {
    w == "array" || w == "dict" || w == "struct" || w == "func"
  }

  // The types that a form can stand for.
  ghost predicate Parsable(s: Shape) {
    && (match s.tag
        case TArray => |s.fields| == 1 && s.names == []
        case TDict => |s.fields| == 1 && s.names == []
        case TStruct => |s.names| == |s.fields| && forall i :: 0 <= i < |s.names| ==> s.names[i].Some?
        case TFunc => |s.names| == |s.fields| && s.fields != []
        case TParser => false
        case _ => s.fields == [] && s.names == [] && Named(s.tag))
    && forall i :: 0 <= i < |s.fields| ==> Parsable(s.fields[i])
  }

  // No parameter has a name that begins a type.
  ghost predicate HeadFree(s: Shape) {
    && (s.tag.TFunc? ==> forall i :: 0 <= i < |s.names| && s.names[i].Some? ==> !IsHead(s.names[i].value))
    && forall i :: 0 <= i < |s.fields| ==> HeadFree(s.fields[i])
  }

  // The form of a type, names of parameters included.
  function Spelled(s: Shape): Tree {
    if IsBuiltin(s.tag) then Word(TagName(s.tag))
    else Seq([Word(TagName(s.tag))] + SpelledAll(s.fields, s.names))
  }

  function SpelledAll(fields: seq<Shape>, names: seq<Option<string>>): (r: seq<Tree>)
    ensures |r| == |fields|
  {
    if fields == [] then []
    else
      [if names != [] && names[0].Some? then Seq([Word(names[0].value), Spelled(fields[0])]) else Spelled(fields[0])]
      + SpelledAll(fields[1..], if names == [] then [] else names[1..])
  }

  lemma {:induction false} SpelledAt(fields: seq<Shape>, names: seq<Option<string>>, i: nat)
    requires i < |fields| && (names == [] || |names| == |fields|)
    ensures SpelledAll(fields, names)[i]
         == if names != [] && names[i].Some? then Seq([Word(names[i].value), Spelled(fields[i])])
            else Spelled(fields[i])
  {
    if i > 0 {
      SpelledAt(fields[1..], if names == [] then [] else names[1..], i - 1);
    }
  }

  // The form of a type is parsed as the type, whatever is defined.
  lemma {:induction false} SpelledParsed(s: Shape, defs: Typedefs)
    requires Parsable(s) && HeadFree(s)
    ensures ParseShape(Spelled(s), defs) == Some(s)
    decreases s, 1
  {
    hide SpelledAll, ParseShape, ParseStruct, ParseFunc, Unwrapped, IsHead;
    if IsBuiltin(s.tag) {
      WordParsed(TagName(s.tag), defs);
    } else {
      var items := [Word(TagName(s.tag))] + SpelledAll(s.fields, s.names);
      assert s.names[0..] == s.names && s.fields[0..] == s.fields;
      if s.tag.TStruct? {
        StructParsed(s, items, 0, defs);
        CompoundParsed(items, defs);
      } else if s.tag.TFunc? {
        FuncParsed(s, items, 0, defs);
        CompoundParsed(items, defs);
      } else {
        SpelledAt(s.fields, s.names, 0);
        SpelledParsed(s.fields[0], defs);
        NotParser(s.fields[0]);
        ElementParsed(s, items, defs);
      }
    }
  }

  lemma CompoundParsed(items: seq<Tree>, defs: Typedefs)
    requires items != []
    ensures items[0] == Word("struct") ==> ParseShape(Seq(items), defs) == ParseStruct(items, 1, defs)
    ensures items[0] == Word("func") ==>
              var f := ParseFunc(items, 1, defs);
              f.Some? && f.value.fields != [] ==> ParseShape(Seq(items), defs) == f
  {
    hide ParseStruct, ParseFunc, Unwrapped;
  }

  lemma ElementParsed(s: Shape, items: seq<Tree>, defs: Typedefs)
    requires (s.tag.TArray? || s.tag.TDict?) && |s.fields| == 1 && s.names == []
    requires items == [Word(TagName(s.tag)), Spelled(s.fields[0])]
    requires ParseShape(Spelled(s.fields[0]), defs) == Some(s.fields[0]) && Unwrapped(s.fields[0]) == s.fields[0]
    ensures ParseShape(Seq(items), defs) == Some(s)
  {
    hide Spelled, Unwrapped;
    assert s.fields == [s.fields[0]];
  }

  lemma NotParser(s: Shape)
    requires Parsable(s)
    ensures Unwrapped(s) == s
  {
  }

  lemma FieldParsed(name: string, s: Shape, defs: Typedefs)
    requires ParseShape(Spelled(s), defs) == Some(s) && Unwrapped(s) == s
    ensures ParseNamed(Seq([Word(name), Spelled(s)]), defs) == Some((name, s))
    ensures !IsHead(name) ==> ParseShape(Seq([Word(name), Spelled(s)]), defs) == None
  {
    hide Spelled, Unwrapped;
  }

  // A named component of a type.
  lemma ComponentOf(s: Shape, i: nat)
    requires Parsable(s) && HeadFree(s) && (s.tag.TStruct? || s.tag.TFunc?) && i < |s.fields|
    ensures |s.names| == |s.fields| && Parsable(s.fields[i]) && HeadFree(s.fields[i])
    ensures s.tag.TStruct? ==> s.names[i].Some?
    ensures s.tag.TFunc? && s.names[i].Some? ==> !IsHead(s.names[i].value)
  {
  }

  lemma NamesMatch(s: Shape)
    requires Parsable(s) && (s.tag.TStruct? || s.tag.TFunc?)
    ensures |s.names| == |s.fields|
  {
  }

  lemma FromHere<T>(s: seq<T>, i: nat)
    requires i <= |s|
    ensures s[i..] == if i < |s| then [s[i]] + s[i + 1..] else []
  {
  }

  lemma {:induction false} StructParsed(s: Shape, items: seq<Tree>, i: nat, defs: Typedefs)
    requires Parsable(s) && HeadFree(s) && s.tag.TStruct? && i <= |s.fields|
    requires items == [Word("struct")] + SpelledAll(s.fields, s.names)
    ensures |s.names| == |s.fields|
    ensures ParseStruct(items, i + 1, defs) == Some(Shape(TStruct, s.fields[i..], s.names[i..]))
    decreases s, 0, |s.fields| - i
  {
    hide SpelledAll, Spelled, ParseShape, ParseNamed, ParseStruct, Unwrapped, IsHead, Parsable, HeadFree;
    NamesMatch(s);
    StructUnfold(items, i + 1, defs);
    FromHere(s.fields, i);
    FromHere(s.names, i);
    if i < |s.fields| {
      StructParsed(s, items, i + 1, defs);
      ComponentOf(s, i);
      SpelledAt(s.fields, s.names, i);
      SpelledParsed(s.fields[i], defs);
      NotParser(s.fields[i]);
      FieldParsed(s.names[i].value, s.fields[i], defs);
      assert items[i + 1] == SpelledAll(s.fields, s.names)[i];
    }
  }

  // The field at i and the ones behind it.
  lemma StructUnfold(items: seq<Tree>, i: nat, defs: Typedefs)
    ensures i >= |items| ==> ParseStruct(items, i, defs) == Some(Shape(TStruct, [], []))
    ensures i < |items| ==>
              var f, rest := ParseNamed(items[i], defs), ParseStruct(items, i + 1, defs);
              ParseStruct(items, i, defs)
              == if f.Some? && rest.Some? then
                Some(Shape(TStruct, [f.value.1] + rest.value.fields, [Some(f.value.0)] + rest.value.names))
              else None
  {
    hide ParseNamed;
  }

  lemma {:induction false} FuncParsed(s: Shape, items: seq<Tree>, i: nat, defs: Typedefs)
    requires Parsable(s) && HeadFree(s) && s.tag.TFunc? && i <= |s.fields|
    requires items == [Word("func")] + SpelledAll(s.fields, s.names)
    ensures |s.names| == |s.fields|
    ensures ParseFunc(items, i + 1, defs) == Some(Shape(TFunc, s.fields[i..], s.names[i..]))
    decreases s, 0, |s.fields| - i
  {
    hide SpelledAll, Spelled, ParseShape, ParseNamed, ParseFunc, Unwrapped, IsHead, Parsable, HeadFree;
    NamesMatch(s);
    FuncUnfold(items, i + 1, defs);
    FromHere(s.fields, i);
    FromHere(s.names, i);
    if i < |s.fields| {
      FuncParsed(s, items, i + 1, defs);
      ComponentOf(s, i);
      SpelledAt(s.fields, s.names, i);
      SpelledParsed(s.fields[i], defs);
      NotParser(s.fields[i]);
      if s.names[i].Some? {
        FieldParsed(s.names[i].value, s.fields[i], defs);
      }
      assert items[i + 1] == SpelledAll(s.fields, s.names)[i];
    }
  }

  // The parameter at i and the ones behind it: a type, or else a name and a type.
  lemma FuncUnfold(items: seq<Tree>, i: nat, defs: Typedefs)
    ensures i >= |items| ==> ParseFunc(items, i, defs) == Some(Shape(TFunc, [], []))
    ensures i < |items| ==>
              var e, f, rest := ParseShape(items[i], defs), ParseNamed(items[i], defs), ParseFunc(items, i + 1, defs);
              ParseFunc(items, i, defs)
              == if rest.None? || (e.None? && f.None?) then None
              else if e.Some? then
                Some(Shape(TFunc, [e.value] + rest.value.fields, [None] + rest.value.names))
              else
                Some(Shape(TFunc, [f.value.1] + rest.value.fields, [Some(f.value.0)] + rest.value.names))
  {
    hide ParseShape, ParseNamed;
  }

  // What is printed is the form of the type, as no parameter has a name.
  lemma {:induction false} PrintedSpelled(s: Shape)
    requires Writable(s)
    ensures Parsable(s) && HeadFree(s) && Spelled(s) == FormOf(s)
    decreases s, 1
  {
    hide IsName, IsHead, FormsOf, SpelledAll;
    forall i | 0 <= i < |s.fields|
      ensures Parsable(s.fields[i]) && HeadFree(s.fields[i]) && Spelled(s.fields[i]) == FormOf(s.fields[i])
    {
      PrintedSpelled(s.fields[i]);
    }
    var names := if s.tag.TStruct? then s.names else [];
    SameForms(s.fields, s.names, names);
  }

  lemma {:induction false} SameForms(fields: seq<Shape>, names: seq<Option<string>>, printed: seq<Option<string>>)
    requires forall i :: 0 <= i < |fields| ==> Spelled(fields[i]) == FormOf(fields[i])
    requires names == printed || (printed == [] && forall i :: 0 <= i < |names| ==> names[i].None?)
    ensures SpelledAll(fields, names) == FormsOf(fields, printed)
    decreases fields, 0
  {
    hide Spelled, FormOf;
    if fields != [] {
      SameForms(fields[1..], if names == [] then [] else names[1..], if printed == [] then [] else printed[1..]);
    }
  }

  lemma FormParsed(s: Shape, defs: Typedefs)
    requires Writable(s)
    ensures ParseShape(FormOf(s), defs) == Some(s)
  {
    hide *;
    PrintedSpelled(s);
    SpelledParsed(s, defs);
  }

  // u is t without some items at the ends of sequences.
  predicate Trims(u: Tree, t: Tree)
    decreases u
  {
    if u.Seq? && t.Seq? then
      |u.items| <= |t.items| && forall i :: 0 <= i < |u.items| ==> Trims(u.items[i], t.items[i])
    else u == t
  }

  // Items behind the type of an element, a value or a field are ignored.
  lemma ExtraIgnored(head: string, t: Tree, more: seq<Tree>, defs: Typedefs)
    ensures head == "array" || head == "dict" ==>
              ParseShape(Seq([Word(head), t] + more), defs) == ParseShape(Seq([Word(head), t]), defs)
    ensures ParseNamed(Seq([Word(head), t] + more), defs) == ParseNamed(Seq([Word(head), t]), defs)
  {
    hide Unwrapped, ParseStruct, ParseFunc;
    var long, short := [Word(head), t] + more, [Word(head), t];
    assert long[0] == short[0] && long[1] == short[1];
  }

  // Inside another type a defined parser stands for what it parses, but not as the result of a function.
  lemma ParserInside(w: string, name: string, defs: Typedefs)
    requires (forall tag :: Named(tag) ==> w != TagName(tag)) && w in defs
    requires defs[w].tag.TParser? && |defs[w].fields| == 1
    ensures ParseShape(Seq([Word("array"), Word(w)]), defs) == Some(Shape(TArray, defs[w].fields, []))
    ensures ParseShape(Seq([Word("dict"), Word(w)]), defs) == Some(Shape(TDict, defs[w].fields, []))
    ensures ParseShape(Seq([Word("struct"), Seq([Word(name), Word(w)])]), defs)
         == Some(Shape(TStruct, defs[w].fields, [Some(name)]))
    ensures ParseShape(Seq([Word("func"), Word(w)]), defs) == Some(Shape(TFunc, [defs[w]], [None]))
  {
    hide TagName, SimpleTag, ParseStruct, ParseFunc;
    WordParsed(w, defs);
    assert defs[w].fields == [defs[w].fields[0]];
    var field := Seq([Word(name), Word(w)]);
    assert ParseNamed(field, defs) == Some((name, defs[w].fields[0]));
    var fields, params := [Word("struct"), field], [Word("func"), Word(w)];
    var noFields: seq<Shape>, noNames: seq<Option<string>> := [], [];
    StructUnfold(fields, 2, defs);
    StructUnfold(fields, 1, defs);
    assert [defs[w].fields[0]] + noFields == defs[w].fields && [Some(name)] + noNames == [Some(name)];
    assert ParseStruct(fields, 1, defs) == Some(Shape(TStruct, defs[w].fields, [Some(name)]));
    CompoundParsed(fields, defs);
    FuncUnfold(params, 2, defs);
    FuncUnfold(params, 1, defs);
    assert [defs[w]] + noFields == [defs[w]] && [None] + noNames == [None];
    assert ParseFunc(params, 1, defs) == Some(Shape(TFunc, [defs[w]], [None]));
    CompoundParsed(params, defs);
  }

  // us are the items from number i on, each without some items at the ends of sequences.
  ghost predicate AllTrim(us: seq<Tree>, items: seq<Tree>, i: nat) {
    i + |us| <= |items| && forall j :: 0 <= j < |us| ==> Trims(us[j], items[i + j])
  }

  lemma SeqTrims(head: string, us: seq<Tree>, items: seq<Tree>)
    requires items != [] && items[0] == Word(head) && AllTrim(us, items, 1)
    ensures Trims(Seq([Word(head)] + us), Seq(items))
  {
    var all := [Word(head)] + us;
    assert Trims(all[0], items[0]);
    forall j | 1 <= j < |all| ensures Trims(all[j], items[j]) {
      assert all[j] == us[j - 1] && items[1 + (j - 1)] == items[j];
    }
  }

  lemma AllTrimHead(u: Tree, us: seq<Tree>, items: seq<Tree>, i: nat)
    requires i < |items| && Trims(u, items[i]) && AllTrim(us, items, i + 1)
    ensures AllTrim([u] + us, items, i)
  {
    hide Trims;
    var all := [u] + us;
    forall j | 0 <= j < |all| ensures Trims(all[j], items[i + j]) {
      if j > 0 {
        assert all[j] == us[j - 1] && items[i + 1 + (j - 1)] == items[i + j];
      }
    }
  }

  lemma SpelledHead(field: Shape, name: Option<string>, fields: seq<Shape>, names: seq<Option<string>>)
    ensures SpelledAll([field] + fields, [name] + names)
         == [if name.Some? then Seq([Word(name.value), Spelled(field)]) else Spelled(field)] + SpelledAll(fields, names)
  {
    hide Spelled;
    assert ([field] + fields)[1..] == fields && ([name] + names)[1..] == names;
  }

  // The type without names of fields.
  lemma NamelessSpelled(field: Shape)
    ensures SpelledAll([field], []) == [Spelled(field)]
  {
    hide Spelled;
    assert [field][1..] == [];
  }

  // Nothing else is a type: with nothing defined, a form that parses is that of the type, but for items at the ends of
  // its sequences that are ignored.
  lemma {:induction false} ParsedSpelled(t: Tree)
    requires ParseShape(t, map[]).Some?
    ensures var s := ParseShape(t, map[]).value; Trims(Spelled(s), t) && Parsable(s)
    decreases t, 2
  {
    hide Trims, AllTrim, SpelledAll, ParseStruct, ParseFunc, ParseNamed, Unwrapped, SimpleTag, TagName;
    var s := ParseShape(t, map[]).value;
    match t
    case Word(w) =>
      SimpleTagExactly(w, s.tag);
      SameTrims(t);
    case Seq(items) =>
      if items[0].word == "array" || items[0].word == "dict" {
        ParsedSpelled(items[1]);
        var e := ParseShape(items[1], map[]).value;
        PlainUnwrapped(e);
        NamelessSpelled(e);
        OneTrims(Spelled(e), items);
        SeqTrims(items[0].word, [Spelled(e)], items);
        HeadWords();
      } else if items[0].word == "struct" {
        StructSpelled(items, 1);
        SeqTrims("struct", SpelledAll(s.fields, s.names), items);
        HeadWords();
      } else {
        FuncSpelled(items, 1);
        SeqTrims("func", SpelledAll(s.fields, s.names), items);
        HeadWords();
      }
  }

  lemma HeadWords()
    ensures TagName(TArray) == "array" && TagName(TDict) == "dict" && TagName(TStruct) == "struct"
    ensures TagName(TFunc) == "func"
  {
  }

  lemma SameTrims(t: Tree)
    requires !t.Seq?
    ensures Trims(t, t)
  {
  }

  lemma OneTrims(u: Tree, items: seq<Tree>)
    requires |items| >= 2 && Trims(u, items[1])
    ensures AllTrim([u], items, 1)
  {
    hide Trims;
  }

  lemma PlainUnwrapped(s: Shape)
    requires !s.tag.TParser?
    ensures Unwrapped(s) == s
  {
  }

  lemma {:induction false} NamedSpelled(t: Tree)
    requires ParseNamed(t, map[]).Some?
    ensures var (name, s) := ParseNamed(t, map[]).value;
            Trims(Seq([Word(name), Spelled(s)]), t) && Parsable(s)
    decreases t, 1
  {
    hide Trims, AllTrim, Spelled, ParseShape, Unwrapped;
    ParsedSpelled(t.items[1]);
    var s := ParseShape(t.items[1], map[]).value;
    PlainUnwrapped(s);
    OneTrims(Spelled(s), t.items);
    SeqTrims(t.items[0].word, [Spelled(s)], t.items);
    assert [t.items[0]] + [Spelled(s)] == [t.items[0], Spelled(s)];
  }

  lemma {:induction false} StructSpelled(items: seq<Tree>, i: nat)
    requires i <= |items| && ParseStruct(items, i, map[]).Some?
    ensures var s := ParseStruct(items, i, map[]).value;
            s.tag.TStruct? && Parsable(s) && AllTrim(SpelledAll(s.fields, s.names), items, i)
    decreases items, |items| - i
  {
    hide Trims, Spelled, SpelledAll, ParseShape, ParseNamed, ParseStruct;
    StructUnfold(items, i, map[]);
    if i < |items| {
      var f, rest := ParseNamed(items[i], map[]).value, ParseStruct(items, i + 1, map[]).value;
      NamedSpelled(items[i]);
      StructSpelled(items, i + 1);
      SpelledHead(f.1, Some(f.0), rest.fields, rest.names);
      AllTrimHead(Seq([Word(f.0), Spelled(f.1)]), SpelledAll(rest.fields, rest.names), items, i);
    } else {
      NothingSpelled();
    }
  }

  lemma NothingSpelled()
    ensures SpelledAll([], []) == []
  {
  }

  lemma {:induction false} FuncSpelled(items: seq<Tree>, i: nat)
    requires i <= |items| && ParseFunc(items, i, map[]).Some?
    ensures var s := ParseFunc(items, i, map[]).value;
            && s.tag.TFunc? && (s.fields != [] ==> Parsable(s)) && |s.names| == |s.fields|
            && AllTrim(SpelledAll(s.fields, s.names), items, i)
    decreases items, |items| - i
  {
    hide Trims, Spelled, SpelledAll, ParseShape, ParseNamed, ParseFunc;
    FuncUnfold(items, i, map[]);
    if i < |items| {
      var e, rest := ParseShape(items[i], map[]), ParseFunc(items, i + 1, map[]).value;
      FuncSpelled(items, i + 1);
      if e.Some? {
        ParsedSpelled(items[i]);
        SpelledHead(e.value, None, rest.fields, rest.names);
        AllTrimHead(Spelled(e.value), SpelledAll(rest.fields, rest.names), items, i);
      } else {
        NamedSpelled(items[i]);
        var f := ParseNamed(items[i], map[]).value;
        SpelledHead(f.1, Some(f.0), rest.fields, rest.names);
        AllTrimHead(Seq([Word(f.0), Spelled(f.1)]), SpelledAll(rest.fields, rest.names), items, i);
      }
    } else {
      NothingSpelled();
    }
  }

  // Printing a type, reading the text as a form and parsing the form gives the type back, whatever is defined.
  lemma TypeRoundTrip(s: Shape, defs: Typedefs)
    requires Writable(s)
    ensures Parsed(Print(s)) == Seq([FormOf(s)]) && ParseShape(FormOf(s), defs) == Some(s)
  {
    hide *;
    WritableLegible(s);
    PrintedForm(s);
    FormParsed(s, defs);
  }

  lemma WritableLegible(s: Shape)
    requires Writable(s)
    ensures Legible(s)
  {
  }

  lemma TagNamesDiffer(a: Tag, b: Tag)
    ensures TagName(a) == TagName(b) ==> a == b
  {
  }

  lemma {:induction false} FormInjective(a: Shape, b: Shape)
    requires Legible(a) && Legible(b) && FormOf(a) == FormOf(b)
    ensures a == b
    decreases a, 1
  {
    hide FormsOf, TagName, IsName;
    if IsBuiltin(a.tag) || IsBuiltin(b.tag) {
      TagNamesDiffer(a.tag, b.tag);
    } else {
      var ta, tb := FormOf(a).items, FormOf(b).items;
      assert ta[0] == Word(TagName(a.tag)) && tb[0] == Word(TagName(b.tag));
      TagNamesDiffer(a.tag, b.tag);
      var na, nb := if a.tag.TStruct? then a.names else [], if b.tag.TStruct? then b.names else [];
      assert ta[1..] == FormsOf(a.fields, na) && tb[1..] == FormsOf(b.fields, nb);
      FormsInjective(a.fields, na, b.fields, nb);
      assert a.tag.TFunc? ==> a.names == b.names;
    }
  }

  lemma {:induction false} FormsInjective(fa: seq<Shape>, na: seq<Option<string>>, fb: seq<Shape>,
                                          nb: seq<Option<string>>)
    requires FormsOf(fa, na) == FormsOf(fb, nb)
    requires (forall i :: 0 <= i < |fa| ==> Legible(fa[i])) && (forall i :: 0 <= i < |fb| ==> Legible(fb[i]))
    requires (na == [] && nb == []) || (|na| == |fa| && |nb| == |fb|)
    requires (forall i :: 0 <= i < |na| ==> na[i].Some?) && (forall i :: 0 <= i < |nb| ==> nb[i].Some?)
    ensures fa == fb && na == nb
    decreases fa, 0
  {
    hide FormOf, Legible;
    if fa != [] && fb != [] {
      var ra, rb := FormsOf(fa, na), FormsOf(fb, nb);
      assert ra[0] == rb[0] && ra[1..] == rb[1..];
      var ta, tb := if na == [] then [] else na[1..], if nb == [] then [] else nb[1..];
      assert ra[1..] == FormsOf(fa[1..], ta) && rb[1..] == FormsOf(fb[1..], tb);
      FormInjective(fa[0], fb[0]);
      FormsInjective(fa[1..], ta, fb[1..], tb);
      assert fa == [fa[0]] + fa[1..] && fb == [fb[0]] + fb[1..];
      assert na != [] ==> na == [na[0]] + na[1..] && nb == [nb[0]] + nb[1..];
    }
  }

  // Different types print differently.
  lemma PrintInjective(a: Shape, b: Shape)
    requires Legible(a) && Legible(b) && Print(a) == Print(b)
    ensures a == b
  {
    hide *;
    PrintedForm(a);
    PrintedForm(b);
    FormInjective(a, b);
  }

  // The type without the names of parameters.
  function Nameless(s: Shape): Shape
    decreases s, 1
  {
    Shape(s.tag, NamelessAll(s.fields), if s.tag.TFunc? then seq(|s.names|, _ => None) else s.names)
  }

  function NamelessAll(fields: seq<Shape>): (r: seq<Shape>)
    ensures |r| == |fields| && forall i :: 0 <= i < |fields| ==> r[i] == Nameless(fields[i])
    decreases fields, 0
  {
    if fields == [] then [] else [Nameless(fields[0])] + NamelessAll(fields[1..])
  }

  lemma {:induction false} PrintNameless(s: Shape)
    ensures Print(Nameless(s)) == Print(s)
    decreases s, 1
  {
    PrintFieldsNameless(s.fields, if s.tag.TStruct? then s.names else []);
  }

  lemma {:induction false} PrintFieldsNameless(fields: seq<Shape>, names: seq<Option<string>>)
    ensures PrintFields(NamelessAll(fields), names) == PrintFields(fields, names)
    decreases fields, 0
  {
    hide Print, Nameless;
    if fields != [] {
      PrintNameless(fields[0]);
      PrintFieldsNameless(fields[1..], if names == [] then [] else names[1..]);
      assert NamelessAll(fields)[1..] == NamelessAll(fields[1..]);
    }
  }

  // Types print alike exactly if they differ in the names of parameters at most.
  lemma PrintExactly(a: Shape, b: Shape)
    requires Legible(Nameless(a)) && Legible(Nameless(b))
    ensures Print(a) == Print(b) <==> Nameless(a) == Nameless(b)
  {
    hide *;
    PrintNameless(a);
    PrintNameless(b);
    if Print(a) == Print(b) {
      PrintInjective(Nameless(a), Nameless(b));
    }
  }

  // The loose structural comparison ignores the names of fields and parameters.
  predicate Loose(a: Shape, b: Shape)
    decreases a
  {
    a.tag == b.tag && |a.fields| == |b.fields| && forall i :: 0 <= i < |a.fields| ==> Loose(a.fields[i], b.fields[i])
  }

  // The type without any names.
  function Erased(s: Shape): Shape
    decreases s, 1
  {
    Shape(s.tag, ErasedAll(s.fields), [])
  }

  function ErasedAll(fields: seq<Shape>): (r: seq<Shape>)
    ensures |r| == |fields| && forall i :: 0 <= i < |fields| ==> r[i] == Erased(fields[i])
    decreases fields, 0
  {
    if fields == [] then [] else [Erased(fields[0])] + ErasedAll(fields[1..])
  }

  lemma {:induction false} LooseExactly(a: Shape, b: Shape)
    ensures Loose(a, b) <==> Erased(a) == Erased(b)
    decreases a
  {
    hide ErasedAll;
    var fa, fb := ErasedAll(a.fields), ErasedAll(b.fields);
    if |a.fields| == |b.fields| {
      forall i | 0 <= i < |a.fields| ensures Loose(a.fields[i], b.fields[i]) <==> fa[i] == fb[i] {
        LooseExactly(a.fields[i], b.fields[i]);
      }
    }
    if Loose(a, b) {
      assert fa == fb;
    }
    if Erased(a) == Erased(b) {
      assert |fa| == |fb|;
    }
  }

  // Types compare loosely equal if their hashes are equal and their structures loosely so.
  predicate LooseEqual(hash: string -> nat, a: Shape, b: Shape) {
    hash(Print(a)) == hash(Print(b)) && Loose(a, b)
  }

  lemma {:induction false} NamelessLoose(a: Shape, b: Shape)
    requires Nameless(a) == Nameless(b)
    ensures Loose(a, b)
    decreases a
  {
    assert NamelessAll(a.fields) == NamelessAll(b.fields);
    forall i | 0 <= i < |a.fields| ensures Loose(a.fields[i], b.fields[i]) {
      assert NamelessAll(a.fields)[i] == Nameless(a.fields[i]) && NamelessAll(b.fields)[i] == Nameless(b.fields[i]);
      NamelessLoose(a.fields[i], b.fields[i]);
    }
  }

  // The hash is taken of the printed form, field names included, so short of a collision the loose comparison ignores
  // nothing but the names of parameters.
  lemma LooseIsStrict(hash: string -> nat, a: Shape, b: Shape)
    requires Legible(Nameless(a)) && Legible(Nameless(b))
    requires hash(Print(a)) == hash(Print(b)) ==> Print(a) == Print(b)
    ensures LooseEqual(hash, a, b) <==> Nameless(a) == Nameless(b)
  {
    hide Print, Loose, Legible, Nameless;
    PrintExactly(a, b);
    if Nameless(a) == Nameless(b) {
      NamelessLoose(a, b);
    }
  }
}
