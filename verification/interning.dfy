/**
 The registry of types: every shape has one object.
 */
module Interning {
  import opened Basics
  import opened Forms
  import opened Printing
  import opened Shapes

  // A type object. Its structure never changes once it is built; only its hash is computed on demand.
  class Type {
    const tag: Tag
    const fields: seq<Type>
    const names: seq<Option<string>>
    ghost const shape: Shape
    // Zero until it is computed.
    var hash: nat

    constructor (tag: Tag, fields: seq<Type>, names: seq<Option<string>>, ghost shape: Shape)
      ensures this.tag == tag && this.fields == fields && this.names == names && this.shape == shape && hash == 0
    {
      this.tag, this.fields, this.names, this.shape, this.hash := tag, fields, names, shape, 0;
    }
  }

  // The shapes of a list of types.
  ghost function ShapesOf(fields: seq<Type>): (r: seq<Shape>)
    ensures |r| == |fields| && forall i :: 0 <= i < |r| ==> r[i] == fields[i].shape
  {
    if fields == [] then [] else [fields[0].shape] + ShapesOf(fields[1..])
  }

  // The object has the shape it claims, with components among the given types.
  ghost predicate Built(t: Type, all: set<Type>) {
    && Ok(t.shape) && t.shape == Shape(t.tag, ShapesOf(t.fields), t.names)
    && forall i :: 0 <= i < |t.fields| ==> t.fields[i] in all
  }

  const BUCKETS := 101

  // What structural equality comes down to.
  lemma ShapesEqual(a: Type, b: Type, all: set<Type>)
    requires Built(a, all) && Built(b, all)
    ensures a.shape == b.shape <==>
            && a.tag == b.tag && |a.fields| == |b.fields| && a.names == b.names
            && forall k :: 0 <= k < |a.fields| ==> a.fields[k].shape == b.fields[k].shape
  {
    hide Ok;
    if |a.fields| == |b.fields| && forall k :: 0 <= k < |a.fields| ==> a.fields[k].shape == b.fields[k].shape {
      assert ShapesOf(a.fields) == ShapesOf(b.fields);
    }
    if a.shape == b.shape {
      assert |ShapesOf(a.fields)| == |ShapesOf(b.fields)|;
      forall k | 0 <= k < |a.fields| ensures a.fields[k].shape == b.fields[k].shape {
        assert ShapesOf(a.fields)[k] == ShapesOf(b.fields)[k];
      }
    }
  }

  lemma NamesByTag(t: Type, all: set<Type>)
    requires Built(t, all)
    ensures IsBuiltin(t.tag) ==> t.fields == [] && t.names == []
    ensures !t.tag.TStruct? && !t.tag.TFunc? ==> t.names == []
  {
  }

  lemma FieldSmaller(t: Type, all: set<Type>)
    requires Built(t, all)
    ensures forall k :: 0 <= k < |t.fields| ==> t.fields[k] in all && t.fields[k].shape < t.shape
  {
    hide Ok;
    forall k | 0 <= k < |t.fields| ensures t.fields[k].shape < t.shape {
      assert t.shape.fields[k] == t.fields[k].shape;
    }
  }

  // Structural comparison, as far as it tells equal from different.
  method SameType(a: Type, b: Type, ghost all: set<Type>) returns (same: bool)
    requires Built(a, all) && Built(b, all) && forall t :: t in all ==> Built(t, all)
    ensures same <==> a.shape == b.shape
    decreases a.shape
  {
    hide Built;
    if a == b {
      return true;
    }
    ShapesEqual(a, b, all);
    NamesByTag(a, all);
    NamesByTag(b, all);
    if a.tag != b.tag {
      return false;
    }
    if IsBuiltin(a.tag) {
      return true;
    }
    if |a.fields| != |b.fields| {
      return false;
    }
    FieldSmaller(a, all);
    FieldSmaller(b, all);
    var i := 0;
    while i < |a.fields|
      invariant i <= |a.fields| && forall k :: 0 <= k < i ==> a.fields[k].shape == b.fields[k].shape
    {
      var d := SameType(a.fields[i], b.fields[i], all);
      if !d {
        return false;
      }
      i := i + 1;
    }
    if a.tag.TStruct? || a.tag.TFunc? {
      same := SameNames(a.names, b.names);
    } else {
      same := true;
    }
  }

  // Names that are not there are equal only to each other.
  method SameNames(a: seq<Option<string>>, b: seq<Option<string>>) returns (same: bool)
    ensures same <==> a == b
  {
    if |a| != |b| {
      return false;
    }
    var i := 0;
    while i < |a|
      invariant i <= |a| && a[..i] == b[..i]
    {
      var d := if a[i].None? then b[i].None? else b[i].Some? && a[i].value == b[i].value;
      if !d {
        return false;
      }
      i := i + 1;
    }
    assert a[..i] == a && b[..i] == b;
    same := true;
  }

  function OneField(f: Shape, name: Option<string>): string {
    if name.Some? then FieldOpen(name.value) + Print(f) + ") " else Print(f)
  }

  lemma PrintFirst(fields: seq<Shape>, names: seq<Option<string>>)
    requires fields != []
    ensures PrintFields(fields, names)
         == OneField(fields[0], if names == [] then None else names[0])
            + PrintFields(fields[1..], if names == [] then [] else names[1..])
  {
    hide Print, FieldOpen;
  }

  lemma {:induction false} PrintLast(fields: seq<Shape>, names: seq<Option<string>>, i: nat)
    requires i < |fields| && (names == [] || |names| == |fields|)
    ensures PrintFields(fields[..i + 1], if names == [] then [] else names[..i + 1])
         == PrintFields(fields[..i], if names == [] then [] else names[..i])
            + OneField(fields[i], if names == [] then None else names[i])
  {
    hide PrintFields, OneField;
    var front := if names == [] then [] else names[..i];
    var more := if names == [] then [] else names[..i + 1];
    PrintFirst(fields[..i + 1], more);
    PrintNothing();
    var one := OneField(fields[0], if names == [] then None else names[0]);
    if i == 0 {
      assert fields[..1][1..] == [] && fields[..0] == [] && front == [];
      assert names != [] ==> more[1..] == [];
      assert one + "" == one && "" + one == one;
    } else {
      var rest := if names == [] then [] else names[1..];
      PrintFirst(fields[..i], front);
      PrintLast(fields[1..], rest, i - 1);
      assert fields[..i + 1][1..] == fields[1..][..i] && fields[..i][1..] == fields[1..][..i - 1];
      assert names != [] ==> more[1..] == rest[..i] && front[1..] == rest[..i - 1];
      Grouped(one, PrintFields(fields[1..][..i - 1], if names == [] then [] else rest[..i - 1]),
              OneField(fields[i], if names == [] then None else names[i]));
    }
  }

  lemma PrintIs(s: Shape)
    requires Ok(s)
    ensures IsBuiltin(s.tag) ==> Print(s) == TagName(s.tag) + " "
    ensures !IsBuiltin(s.tag) ==>
              var names := if s.tag.TStruct? then s.names else [];
              && (names == [] || |names| == |s.fields|)
              && Print(s) == "(" + TagName(s.tag) + " " + PrintFields(s.fields, names) + ") "
    ensures s.tag.TStruct? ==> |s.names| == |s.fields| && forall i :: 0 <= i < |s.names| ==> s.names[i].Some?
    ensures s.tag.TArray? || s.tag.TDict? || s.tag.TParser? ==> |s.fields| == 1
  {
  }

  lemma PrintNothing()
    ensures PrintFields([], []) == ""
  {
  }

  lemma ShapeIs(t: Type, all: set<Type>)
    requires Built(t, all)
    ensures Ok(t.shape) && t.shape.tag == t.tag && t.shape.names == t.names && |t.shape.fields| == |t.fields|
    ensures forall k :: 0 <= k < |t.fields| ==> t.shape.fields[k] == t.fields[k].shape
  {
    hide Ok;
  }

  // The first i fields.
  function Printed(fields: seq<Shape>, names: seq<Option<string>>, i: nat): string
    requires i <= |fields| && (names == [] || |names| == |fields|)
  {
    PrintFields(fields[..i], if names == [] then [] else names[..i])
  }

  lemma PrintedWhole(fields: seq<Shape>, names: seq<Option<string>>)
    requires names == [] || |names| == |fields|
    ensures Printed(fields, names, 0) == "" && Printed(fields, names, |fields|) == PrintFields(fields, names)
  {
    hide PrintFields;
    assert fields[..0] == [] && (names != [] ==> names[..0] == []);
    PrintNothing();
    assert fields[..|fields|] == fields && names[..|names|] == names;
  }

  lemma PrintedNext(fields: seq<Shape>, names: seq<Option<string>>, i: nat)
    requires i < |fields| && (names == [] || |names| == |fields|)
    ensures Printed(fields, names, i + 1)
         == Printed(fields, names, i) + OneField(fields[i], if names == [] then None else names[i])
  {
    hide PrintFields, OneField;
    PrintLast(fields, names, i);
  }

  // Appends the printed form of a type.
  method TypeStr(t: Type, bs: string, ghost all: set<Type>) returns (r: string)
    requires Built(t, all) && forall x :: x in all ==> Built(x, all)
    ensures r == bs + Print(t.shape)
    decreases t.shape, 1
  {
    hide Print, PrintFields, TagName, Ok;
    PrintIs(t.shape);
    if IsBuiltin(t.tag) {
      return bs + (TagName(t.tag) + " ");
    }
    ghost var head := "(" + TagName(t.tag) + " ";
    ghost var inner := PrintFields(t.shape.fields, if t.tag.TStruct? then t.names else []);
    r := bs + ("(" + TagName(t.tag) + " ");
    r := FieldsStr(t, r, all);
    r := r + ") ";
    Grouped(bs + head, inner, ") ");
    Grouped(bs, head, inner + ") ");
    Grouped(head, inner, ") ");
  }

  method FieldsStr(t: Type, bs: string, ghost all: set<Type>) returns (r: string)
    requires Built(t, all) && !IsBuiltin(t.tag) && forall x :: x in all ==> Built(x, all)
    ensures r == bs + PrintFields(t.shape.fields, if t.tag.TStruct? then t.names else [])
    decreases t.shape, 0
  {
    hide Print, PrintFields, TagName, Ok, OneField, Printed, Built;
    FieldSmaller(t, all);
    ShapeIs(t, all);
    PrintIs(t.shape);
    ghost var fields, names := t.shape.fields, if t.tag.TStruct? then t.names else [];
    PrintedWhole(fields, names);
    r := bs;
    var i := 0;
    while i < |t.fields|
      invariant i <= |t.fields| && r == bs + Printed(fields, names, i)
    {
      ghost var done := r;
      r := FieldStr(t.fields[i], if t.tag.TStruct? then t.names[i] else None, r, all);
      ghost var one := OneField(fields[i], if names == [] then None else names[i]);
      PrintedNext(fields, names, i);
      Grouped(bs, Printed(fields, names, i), one);
      i := i + 1;
    }
  }

  // One field, with its name if it has one.
  method FieldStr(f: Type, name: Option<string>, bs: string, ghost all: set<Type>) returns (r: string)
    requires Built(f, all) && forall x :: x in all ==> Built(x, all)
    ensures r == bs + OneField(f.shape, name)
    decreases f.shape, 2
  {
    hide Print, Built, FieldOpen;
    if name.Some? {
      ghost var open, one := FieldOpen(name.value), Print(f.shape);
      r := bs + FieldOpen(name.value);
      r := TypeStr(f, r, all);
      r := r + ") ";
      Grouped(bs + open, one, ") ");
      Grouped(bs, open, one + ") ");
      Grouped(open, one, ") ");
    } else {
      r := TypeStr(f, bs, all);
    }
  }

  class Registry {
    const hashfn: string -> nat
    const table: array<seq<Type>>
    var builtins: seq<Type>
    var typedefs: map<string, Type>
    ghost var all: set<Type>

    // The bucket of a shape.
    function Bucket(s: Shape): nat {
      hashfn(Print(s)) % BUCKETS
    }

    ghost predicate Cached(t: Type)
      reads t`hash
    {
      t.hash == 0 || t.hash == hashfn(Print(t.shape))
    }

    // The table holds exactly the registered types, each in the bucket of its shape, and no two have the same shape.
    ghost predicate Sound()
      reads this`all, table, all`hash
    {
      && table.Length == BUCKETS
      && (forall t :: t in all ==> Built(t, all) && Cached(t))
      && (forall t :: t in all ==> t in table[Bucket(t.shape)])
      && (forall i, t :: 0 <= i < BUCKETS && t in table[i] ==> t in all && Bucket(t.shape) == i)
      && (forall a, b :: a in all && b in all && a.shape == b.shape ==> a == b)
    }

    ghost predicate Valid()
      reads this, table, all`hash
    {
      && Sound()
      && |builtins| == |BUILTINS|
      && (forall i :: 0 <= i < |builtins| ==> builtins[i] in all && builtins[i].shape == Builtin(BUILTINS[i]))
      && (forall w :: w in typedefs ==> typedefs[w] in all)
    }

    // What the type names stand for.
    ghost function Defs(): Typedefs
      reads this`typedefs
    {
      map w | w in typedefs :: typedefs[w].shape
    }

    method TypeHash(t: Type) returns (h: nat)
      requires Cached(t) && Built(t, all) && forall x :: x in all ==> Built(x, all)
      modifies t`hash
      ensures h == hashfn(Print(t.shape)) && Cached(t)
    {
      if t.hash == 0 {
        var text := TypeStr(t, "", all);
        assert "" + Print(t.shape) == Print(t.shape);
        t.hash := hashfn(text);
      }
      h := t.hash;
    }

    // Types compare equal if their hashes and their structures do.
    method TypeEqual(a: Type, b: Type) returns (same: bool)
      requires Sound() && a in all && Cached(b) && Built(b, all)
      modifies a`hash, b`hash
      ensures Sound() && Cached(b) && (same <==> a.shape == b.shape)
    {
      hide Print, Built;
      var ha := TypeHash(a);
      var hb := TypeHash(b);
      if ha == hb {
        same := SameType(a, b, all);
      } else {
        same := false;
      }
    }

    // Looks for a registered type of the same shape.
    method Probe(t: Type) returns (found: Option<Type>)
      requires Sound() && Built(t, all) && Cached(t)
      modifies all`hash, t`hash
      ensures Sound() && Cached(t)
      ensures found.Some? ==> found.value in all && found.value.shape == t.shape
      ensures found.None? ==> forall x :: x in all ==> x.shape != t.shape
    {
      hide Print, Built;
      var h := TypeHash(t);
      var bucket := table[h % BUCKETS];
      var i := 0;
      while i < |bucket|
        invariant i <= |bucket| && Sound() && Cached(t)
        invariant forall k :: 0 <= k < i ==> bucket[k].shape != t.shape
      {
        assert bucket[i] in table[h % BUCKETS];
        var same := TypeEqual(bucket[i], t);
        if same {
          return Some(bucket[i]);
        }
        i := i + 1;
      }
      found := None;
    }

    // Registers a type whose components are registered, or gives the registered type of the same shape.
    method Finalize(t: Type) returns (r: Type)
      requires Sound() && Built(t, all) && Cached(t)
      requires IsBuiltin(t.tag) ==> t in all || forall x :: x in all ==> x.shape != t.shape
      modifies this`all, table, all`hash, t`hash
      ensures Sound() && r in all && r.shape == t.shape && all == old(all) + {r}
      ensures forall x :: x in old(all) && x.shape == t.shape ==> r == x
      ensures (forall x :: x in old(all) ==> x.shape != t.shape) ==> r == t
    {
      hide Print;
      var probe := Probe(t);
      if probe.None? {
        Insert(t);
        r := t;
      } else {
        r := probe.value;
        assert all == all + {r};
      }
    }

    method Insert(t: Type)
      requires Sound() && Built(t, all) && Cached(t) && forall x :: x in all ==> x.shape != t.shape
      modifies this`all, table, t`hash
      ensures Sound() && all == old(all) + {t}
    {
      hide Print, Ok, ShapesOf;
      var h := TypeHash(t);
      h := h % BUCKETS;
      table[h] := table[h] + [t];
      all := all + {t};
      forall x | x in all ensures Built(x, all) && x in table[Bucket(x.shape)] {
      }
      forall i, x | 0 <= i < BUCKETS && x in table[i] ensures x in all && Bucket(x.shape) == i {
        assert x == t || x in old(table[i]);
      }
    }

    // The registry with the builtin types.
    constructor (hashfn: string -> nat)
      ensures Valid() && typedefs == map[] && fresh(table) && fresh(all) && this.hashfn == hashfn
    {
      this.hashfn := hashfn;
      table := new seq<Type>[BUCKETS](_ => []);
      builtins, typedefs, all := [], map[], {};
      new;
      InitBuiltins();
    }

    method InitBuiltins()
      requires Sound() && all == {} && builtins == []
      modifies this`builtins, this`all, table
      ensures Sound() && typedefs == old(typedefs) && fresh(all)
      ensures |builtins| == |BUILTINS|
      ensures forall i :: 0 <= i < |builtins| ==> builtins[i] in all && builtins[i].shape == Builtin(BUILTINS[i])
    {
      hide Print, Ok, ShapesOf, Built, Builtin, BUILTINS, Bucket;
      for i := 0 to |BUILTINS|
        invariant Sound() && |builtins| == i && fresh(all)
        invariant forall k :: 0 <= k < i ==> builtins[k] in all && builtins[k].shape == Builtin(BUILTINS[k])
        invariant forall x :: x in all ==> x in builtins
      {
        BuiltinsDiffer(i);
        var t := new Type(BUILTINS[i], [], [], Builtin(BUILTINS[i]));
        BuiltinBuilt(t, all);
        forall x | x in all ensures x.shape != t.shape {
          var k :| 0 <= k < |builtins| && builtins[k] == x;
        }
        var r := Finalize(t);
        builtins := builtins + [r];
      }
    }

    lemma AllBuilt()
      requires Sound()
      ensures forall x :: x in all ==> Built(x, all)
    {
    }

    // Registers a type made of registered components.
    method Make(tag: Tag, fields: seq<Type>, names: seq<Option<string>>) returns (r: Type)
      requires Valid() && !IsBuiltin(tag) && forall i :: 0 <= i < |fields| ==> fields[i] in all
      requires Ok(Shape(tag, ShapesOf(fields), names))
      modifies this`all, table, all`hash
      ensures Valid() && old(all) <= all && fresh(all - old(all))
      ensures r in all && r.shape == Shape(tag, ShapesOf(fields), names)
    {
      hide Print, Ok, ShapesOf;
      var t := new Type(tag, fields, names, Shape(tag, ShapesOf(fields), names));
      r := Finalize(t);
    }

    // What a parsed form gives: the registered type of the shape it stands for, or nothing.
    ghost predicate Gives(ty: Option<Type>, s: Option<Shape>)
      reads this`all
    {
      if s.None? then ty.None? else ty.Some? && ty.value in all && ty.value.shape == s.value
    }

    // Inside another type, a parser stands for the type it parses.
    method Unwrap(t: Type) returns (r: Type)
      requires Valid() && t in all
      ensures r in all && r.shape == Unwrapped(t.shape)
    {
      hide Print, Ok;
      OkParser(t, all);
      r := if t.tag.TParser? then t.fields[0] else t;
    }

    // A simple type, or a name that has been given to a type.
    method ParseWord(w: string) returns (ty: Option<Type>)
      requires Valid()
      ensures Gives(ty, ParseShape(Word(w), Defs()))
    {
      hide Print, Ok, ShapesOf, SimpleTag, Sound, BUILTINS;
      var tag := SimpleTag(w);
      if tag.Some? {
        SimpleIsBuiltin(w);
        var i := 0;
        while BUILTINS[i] != tag.value
          invariant i < |BUILTINS| && tag.value in BUILTINS[i..]
          decreases |BUILTINS| - i
        {
          assert BUILTINS[i..] == [BUILTINS[i]] + BUILTINS[i + 1..];
          i := i + 1;
        }
        ty := Some(builtins[i]);
      } else if w in typedefs {
        ty := Some(typedefs[w]);
      } else {
        ty := None;
      }
    }

    method ParseType(t: Tree) returns (ty: Option<Type>)
      requires Valid()
      modifies this`all, table, all`hash
      ensures Valid() && old(all) <= all && fresh(all - old(all))
      ensures Gives(ty, ParseShape(t, Defs()))
      decreases t, 3
    {
      hide Print, Ok, ShapesOf, SimpleTag, ParseStruct, ParseFunc, Sound, BUILTINS;
      ty := None;
      match t {
        case Word(w) =>
          ty := ParseWord(w);
        case Seq(items) =>
          if items != [] && items[0].Word? {
            if items[0].word == "array" || items[0].word == "dict" {
              if |items| > 1 {
                ty := ParseElement(if items[0].word == "array" then TArray else TDict, t);
              }
            } else if items[0].word == "struct" {
              ty := ParseStructType(t);
            } else if items[0].word == "func" {
              ty := ParseFuncType(t);
            }
          }
        case _ =>
      }
    }

    method ParseElement(tag: Tag, t: Tree) returns (ty: Option<Type>)
      requires Valid() && t.Seq? && |t.items| > 1 && (tag.TArray? || tag.TDict?)
      modifies this`all, table, all`hash
      ensures Valid() && old(all) <= all && fresh(all - old(all))
      ensures var e := ParseShape(t.items[1], Defs());
              Gives(ty, if e.None? then None else Some(Shape(tag, [Unwrapped(e.value)], [])))
      decreases t, 1
    {
      hide Print, Ok, Sound, ParseShape, Unwrapped;
      var e := ParseType(t.items[1]);
      if e.None? {
        return None;
      }
      var u := Unwrap(e.value);
      AllBuilt();
      OneElement(tag, u, all);
      var r := Make(tag, [u], []);
      ty := Some(r);
    }

    // A name and a type.
    method ParseNamedType(t: Tree) returns (name: string, ty: Option<Type>)
      requires Valid()
      modifies this`all, table, all`hash
      ensures Valid() && old(all) <= all && fresh(all - old(all))
      ensures match ParseNamed(t, Defs())
              case None => ty.None?
              case Some(f) => name == f.0 && Gives(ty, Some(f.1))
      decreases t, 1
    {
      hide Print, Ok, Sound, ParseShape, Unwrapped;
      name, ty := "", None;
      if t.Seq? && t.items != [] && t.items[0].Word? && |t.items| > 1 {
        name := t.items[0].word;
        var e := ParseType(t.items[1]);
        if e.Some? {
          var u := Unwrap(e.value);
          ty := Some(u);
        }
      }
    }

    method ParseStructType(t: Tree) returns (ty: Option<Type>)
      requires Valid() && t.Seq? && t.items != []
      modifies this`all, table, all`hash
      ensures Valid() && old(all) <= all && fresh(all - old(all))
      ensures Gives(ty, ParseStruct(t.items, 1, Defs()))
      decreases t, 2
    {
      hide Print, Ok, Sound, ParseNamed, ShapesOf, ParseStruct;
      var fields: seq<Type>, names: seq<Option<string>> := [], [];
      ghost var defs := Defs();
      NoShapes();
      StructEnds(t.items, 1, defs, [], []);
      var i := 1;
      while i < |t.items|
        invariant 1 <= i <= |t.items|
        invariant Valid() && old(all) <= all && fresh(all - old(all)) && Defs() == defs
        invariant forall k :: 0 <= k < |fields| ==> fields[k] in all
        invariant |names| == |fields| && forall k :: 0 <= k < |names| ==> names[k].Some?
        invariant ParseStruct(t.items, 1, defs) == Prepended(ShapesOf(fields), names, ParseStruct(t.items, i, defs))
      {
        StructStep(t.items, i, defs, ShapesOf(fields), names);
        var name, f := ParseNamedType(t.items[i]);
        if f.None? {
          return None;
        }
        ShapesAppend(fields, f.value);
        fields := fields + [f.value];
        names := names + [Some(name)];
        i := i + 1;
      }
      StructEnds(t.items, i, defs, ShapesOf(fields), names);
      AllBuilt();
      OkFields(TStruct, fields, names, all);
      var r := Make(TStruct, fields, names);
      ty := Some(r);
    }

    method ParseFuncType(t: Tree) returns (ty: Option<Type>)
      requires Valid() && t.Seq? && t.items != []
      modifies this`all, table, all`hash
      ensures Valid() && old(all) <= all && fresh(all - old(all))
      ensures var f := ParseFunc(t.items, 1, Defs());
              Gives(ty, if f.None? || f.value.fields == [] then None else f)
      decreases t, 2
    {
      hide Print, Ok, Sound, ParseNamed, ParseShape, ShapesOf, ParseFunc;
      var fields: seq<Type>, names: seq<Option<string>> := [], [];
      ghost var defs := Defs();
      NoShapes();
      FuncEnds(t.items, 1, defs, [], []);
      var i := 1;
      while i < |t.items|
        invariant 1 <= i <= |t.items|
        invariant Valid() && old(all) <= all && fresh(all - old(all)) && Defs() == defs
        invariant forall k :: 0 <= k < |fields| ==> fields[k] in all
        invariant |names| == |fields|
        invariant ParseFunc(t.items, 1, defs) == Prepended(ShapesOf(fields), names, ParseFunc(t.items, i, defs))
      {
        FuncStep(t.items, i, defs, ShapesOf(fields), names);
        var name: Option<string> := None;
        var f := ParseType(t.items[i]);
        if f.None? {
          var n, g := ParseNamedType(t.items[i]);
          if g.None? {
            return None;
          }
          name, f := Some(n), g;
        }
        ShapesAppend(fields, f.value);
        fields := fields + [f.value];
        names := names + [name];
        i := i + 1;
      }
      FuncEnds(t.items, i, defs, ShapesOf(fields), names);
      if |fields| < 1 {
        return None;
      }
      AllBuilt();
      OkFields(TFunc, fields, names, all);
      var r := Make(TFunc, fields, names);
      ty := Some(r);
    }

    // Prints a type, reads the text as a form, and parses the form: the same object comes back.
    method Reparse(t: Type) returns (r: Option<Type>)
      requires Valid() && t in all && Writable(t.shape)
      modifies this`all, table, all`hash
      ensures Valid() && r == Some(t)
    {
      hide Print, Ok, Parsed, Writable, FormOf, ParseShape;
      var text := TypeStr(t, "", all);
      assert "" + Print(t.shape) == Print(t.shape);
      TypeRoundTrip(t.shape, Defs());
      var root := Parsed(text);
      r := ParseType(root.items[0]);
    }

    // Names a type. A name that is taken must stand for an equal type, unless it is forced.
    method RegisterTypedef(name: string, t: Type, force: bool) returns (ok: bool)
      requires Valid() && t in all
      modifies this`typedefs, all`hash
      ensures Valid() && (ok <==> old(name !in typedefs || typedefs[name] == t) || force)
      ensures typedefs == if ok then old(typedefs)[name := t] else old(typedefs)
    {
      hide Print, Ok, Built, ShapesOf;
      ok := true;
      if name in typedefs {
        var same := TypeEqual(typedefs[name], t);
        if !same {
          if force {
            typedefs := typedefs[name := t];
          } else {
            ok := false;
          }
        }
      } else {
        typedefs := typedefs[name := t];
      }
    }
  }

  lemma BuiltinBuilt(t: Type, all: set<Type>)
    requires IsBuiltin(t.tag) && t.fields == [] && t.names == [] && t.shape == Builtin(t.tag)
    ensures Built(t, all) && t.shape.tag == t.tag
  {
  }

  lemma BuiltinsDiffer(i: nat)
    requires i < |BUILTINS|
    ensures IsBuiltin(BUILTINS[i])
    ensures forall k :: 0 <= k < i ==> Builtin(BUILTINS[k]) != Builtin(BUILTINS[i])
  {
  }

  lemma SimpleIsBuiltin(w: string)
    requires SimpleTag(w).Some?
    ensures |BUILTINS| > 0 && SimpleTag(w).value in BUILTINS[0..]
  {
  }

  lemma OkParser(t: Type, all: set<Type>)
    requires Built(t, all)
    ensures t.tag.TParser? ==> |t.fields| == 1 && Unwrapped(t.shape) == t.fields[0].shape
    ensures !t.tag.TParser? ==> Unwrapped(t.shape) == t.shape
  {
  }

  lemma OneElement(tag: Tag, u: Type, all: set<Type>)
    requires Built(u, all) && (tag.TArray? || tag.TDict?)
    ensures ShapesOf([u]) == [u.shape] && Ok(Shape(tag, ShapesOf([u]), []))
  {
  }

  lemma OkFields(tag: Tag, fields: seq<Type>, names: seq<Option<string>>, all: set<Type>)
    requires (forall k :: 0 <= k < |fields| ==> fields[k] in all) && forall x :: x in all ==> Built(x, all)
    requires |names| == |fields| && (tag.TStruct? || tag.TFunc?)
    requires tag.TStruct? ==> forall k :: 0 <= k < |names| ==> names[k].Some?
    ensures Ok(Shape(tag, ShapesOf(fields), names))
  {
    var s := Shape(tag, ShapesOf(fields), names);
    forall i | 0 <= i < |s.fields| ensures Ok(s.fields[i]) {
      assert Built(fields[i], all);
    }
  }

  lemma NoShapes()
    ensures ShapesOf([]) == []
  {
  }

  lemma ShapesAppend(fields: seq<Type>, t: Type)
    ensures ShapesOf(fields + [t]) == ShapesOf(fields) + [t.shape]
  {
    var a, b := ShapesOf(fields + [t]), ShapesOf(fields) + [t.shape];
    forall i | 0 <= i < |a| ensures a[i] == b[i] {
    }
    assert |a| == |b|;
  }

  // The fields parsed so far, and the rest.
  ghost function Prepended(fields: seq<Shape>, names: seq<Option<string>>, rest: Option<Shape>): Option<Shape> {
    if rest.None? then None else Some(Shape(rest.value.tag, fields + rest.value.fields, names + rest.value.names))
  }

  lemma StructEnds(items: seq<Tree>, i: nat, defs: Typedefs, fields: seq<Shape>, names: seq<Option<string>>)
    ensures i >= |items| ==> ParseStruct(items, i, defs) == Some(Shape(TStruct, [], []))
    ensures ParseStruct(items, i, defs) == Prepended([], [], ParseStruct(items, i, defs))
    ensures Prepended(fields, names, Some(Shape(TStruct, [], []))) == Some(Shape(TStruct, fields, names))
  {
    assert fields + [] == fields && names + [] == names;
    if ParseStruct(items, i, defs).Some? {
      var s := ParseStruct(items, i, defs).value;
      assert [] + s.fields == s.fields && [] + s.names == s.names;
    }
  }

  lemma StructStep(items: seq<Tree>, i: nat, defs: Typedefs, fields: seq<Shape>, names: seq<Option<string>>)
    requires i < |items|
    ensures match ParseNamed(items[i], defs)
            case None => ParseStruct(items, i, defs).None?
            case Some(f) =>
              Prepended(fields, names, ParseStruct(items, i, defs))
              == Prepended(fields + [f.1], names + [Some(f.0)], ParseStruct(items, i + 1, defs))
  {
    hide ParseNamed;
    var rest := ParseStruct(items, i + 1, defs);
    if ParseNamed(items[i], defs).Some? && rest.Some? {
      var f := ParseNamed(items[i], defs).value;
      assert fields + ([f.1] + rest.value.fields) == fields + [f.1] + rest.value.fields;
      assert names + ([Some(f.0)] + rest.value.names) == names + [Some(f.0)] + rest.value.names;
    }
  }

  lemma FuncEnds(items: seq<Tree>, i: nat, defs: Typedefs, fields: seq<Shape>, names: seq<Option<string>>)
    ensures i >= |items| ==> ParseFunc(items, i, defs) == Some(Shape(TFunc, [], []))
    ensures ParseFunc(items, i, defs) == Prepended([], [], ParseFunc(items, i, defs))
    ensures Prepended(fields, names, Some(Shape(TFunc, [], []))) == Some(Shape(TFunc, fields, names))
  {
    assert fields + [] == fields && names + [] == names;
    if ParseFunc(items, i, defs).Some? {
      var s := ParseFunc(items, i, defs).value;
      assert [] + s.fields == s.fields && [] + s.names == s.names;
    }
  }

  // A parameter: its name, if it has one, and its type.
  ghost function ParseParam(t: Tree, defs: Typedefs): Option<(Option<string>, Shape)> {
    var e := ParseShape(t, defs);
    var named := ParseNamed(t, defs);
    if e.Some? then Some((None, e.value))
    else if named.Some? then Some((Some(named.value.0), named.value.1))
    else None
  }

  lemma FuncStep(items: seq<Tree>, i: nat, defs: Typedefs, fields: seq<Shape>, names: seq<Option<string>>)
    requires i < |items|
    ensures match ParseParam(items[i], defs)
            case None => ParseFunc(items, i, defs).None?
            case Some(f) =>
              Prepended(fields, names, ParseFunc(items, i, defs))
              == Prepended(fields + [f.1], names + [f.0], ParseFunc(items, i + 1, defs))
  {
    hide ParseNamed, ParseShape;
    var rest := ParseFunc(items, i + 1, defs);
    if ParseParam(items[i], defs).Some? && rest.Some? {
      var f := ParseParam(items[i], defs).value;
      assert fields + ([f.1] + rest.value.fields) == fields + [f.1] + rest.value.fields;
      assert names + ([f.0] + rest.value.names) == names + [f.0] + rest.value.names;
    }
  }

  // Between registered types, structural equality is identity; it is enough to compare the components by identity.
  lemma SameIsIdentical(r: Registry, a: Type, b: Type)
    requires r.Sound() && Built(a, r.all) && Built(b, r.all)
    ensures a.shape == b.shape <==> a.tag == b.tag && a.fields == b.fields && a.names == b.names
    ensures a in r.all && b in r.all ==> (a.shape == b.shape <==> a == b)
  {
    if a.shape == b.shape {
      forall i | 0 <= i < |a.fields| ensures a.fields[i] == b.fields[i] {
        assert ShapesOf(a.fields)[i] == ShapesOf(b.fields)[i];
      }
    }
  }
}
