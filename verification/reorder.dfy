/**
 Moving requested fields to the front of a structure.
 */
module Reordering {

  // What belongs to one field: its name, its type and its parser.
  datatype Field<T, P> = Field(name: string, ty: T, parser: P)

  // The three parallel arrays as one list.
  function Fields<T, P>(names: seq<string>, tys: seq<T>, parsers: seq<P>): (r: seq<Field<T, P>>)
    requires |names| == |tys| == |parsers|
    ensures |r| == |names| && forall i :: 0 <= i < |r| ==> r[i] == Field(names[i], tys[i], parsers[i])
  {
    if names == [] then []
    else [Field(names[0], tys[0], parsers[0])] + Fields(names[1..], tys[1..], parsers[1..])
  }

  // The first position from i on that has the name; the length if there is none.
  function Find(names: seq<string>, name: string, i: nat): (j: nat)
    requires i <= |names|
    ensures i <= j <= |names| && (j < |names| ==> names[j] == name)
    ensures forall k :: i <= k < j ==> names[k] != name
    decreases |names| - i
  {
    if i < |names| && names[i] != name then Find(names, name, i + 1) else i
  }

  function NamesOf<T, P>(fs: seq<Field<T, P>>): (r: seq<string>)
    ensures |r| == |fs| && forall i :: 0 <= i < |r| ==> r[i] == fs[i].name
  {
    if fs == [] then [] else [fs[0].name] + NamesOf(fs[1..])
  }

  function Swapped<A>(s: seq<A>, i: nat, j: nat): seq<A>
    requires i < |s| && j < |s|
  {
    s[i := s[j]][j := s[i]]
  }

  ghost predicate Distinct(s: seq<string>) {
    forall i, j :: 0 <= i < j < |s| ==> s[i] != s[j]
  }

  // The inner loop: looks for the name from position i on.
  method Search(names: array<string>, name: string, i: nat) returns (j: nat)
    ensures i <= j && (i <= names.Length ==> j == Find(names[..], name, i)) && (i > names.Length ==> j == i)
  {
    j := i;
    while j < names.Length && names[j] != name
      invariant i <= j && (i <= names.Length ==> j <= names.Length) && (i > names.Length ==> j == i)
      invariant i <= names.Length ==> Find(names[..], name, i) == Find(names[..], name, j)
    {
      j := j + 1;
    }
  }

  // Swaps two fields in all three arrays.
  method Swap<T, P>(names: array<string>, tys: array<T>, parsers: array<P>, i: nat, j: nat)
    requires names.Length == tys.Length == parsers.Length && i < names.Length && j < names.Length
    requires names != tys && tys != parsers && names != parsers
    modifies names, tys, parsers
    ensures Fields(names[..], tys[..], parsers[..]) == Swapped(old(Fields(names[..], tys[..], parsers[..])), i, j)
  {
    hide Fields;
    names[i], names[j] := names[j], names[i];
    tys[i], tys[j] := tys[j], tys[i];
    parsers[i], parsers[j] := parsers[j], parsers[i];
    SwappedFields(old(names[..]), old(tys[..]), old(parsers[..]), names[..], tys[..], parsers[..], i, j);
  }

  lemma SwappedFields<T, P>(names: seq<string>, tys: seq<T>, parsers: seq<P>,
                            names1: seq<string>, tys1: seq<T>, parsers1: seq<P>, i: nat, j: nat)
    requires |names| == |tys| == |parsers| && i < |names| && j < |names|
    requires names1 == Swapped(names, i, j) && tys1 == Swapped(tys, i, j) && parsers1 == Swapped(parsers, i, j)
    ensures Fields(names1, tys1, parsers1) == Swapped(Fields(names, tys, parsers), i, j)
  {
    hide Fields;
    var a, b := Fields(names1, tys1, parsers1), Swapped(Fields(names, tys, parsers), i, j);
    forall k | 0 <= k < |a| ensures a[k] == b[k] {
      assert a[k] == Field(names1[k], tys1[k], parsers1[k]);
    }
  }

  // One requested name is swapped into place i, unless it is not found from there on.
  method Place<T, P>(names: array<string>, tys: array<T>, parsers: array<P>, name: string, i: nat)
    requires names.Length == tys.Length == parsers.Length
    requires names != tys && tys != parsers && names != parsers
    modifies names, tys, parsers
    ensures Fields(names[..], tys[..], parsers[..])
         == Placed(old(Fields(names[..], tys[..], parsers[..])), name, i)
  {
    hide Fields, Find, Swapped, NamesOf;
    NamesOfFields(names[..], tys[..], parsers[..]);
    ghost var fs := Fields(names[..], tys[..], parsers[..]);
    var j := Search(names, name, i);
    if j < names.Length {
      assert i <= j;
      if i < j {
        Swap(names, tys, parsers, i, j);
      } else {
        SwappedSelf(fs, i);
      }
    }
  }

  // Each requested name, in order, is put into its place.
  method Reorder<T, P>(names: array<string>, tys: array<T>, parsers: array<P>, custom: seq<string>)
    requires names.Length == tys.Length == parsers.Length
    requires names != tys && tys != parsers && names != parsers
    modifies names, tys, parsers
    ensures Fields(names[..], tys[..], parsers[..])
         == Reordered(old(Fields(names[..], tys[..], parsers[..])), custom, 0)
  {
    hide Fields, Placed;
    var i := 0;
    while i < |custom|
      invariant i <= |custom|
      invariant Reordered(old(Fields(names[..], tys[..], parsers[..])), custom, 0)
             == Reordered(Fields(names[..], tys[..], parsers[..]), custom, i)
    {
      Place(names, tys, parsers, custom[i], i);
      i := i + 1;
    }
  }

  lemma SwappedSelf<A>(s: seq<A>, i: nat)
    requires i < |s|
    ensures Swapped(s, i, i) == s
  {
  }

  lemma NamesOfFields<T, P>(names: seq<string>, tys: seq<T>, parsers: seq<P>)
    requires |names| == |tys| == |parsers|
    ensures NamesOf(Fields(names, tys, parsers)) == names
  {
  }

  // One request.
  function Placed<T, P>(fs: seq<Field<T, P>>, name: string, i: nat): (r: seq<Field<T, P>>)
    ensures |r| == |fs|
  {
    if i > |fs| then fs
    else
      var j := Find(NamesOf(fs), name, i);
      if j < |fs| then Swapped(fs, i, j) else fs
  }

  function Reordered<T, P>(fs: seq<Field<T, P>>, custom: seq<string>, i: nat): (r: seq<Field<T, P>>)
    ensures |r| == |fs|
    decreases |custom| - i
  {
    if i >= |custom| then fs else Reordered(Placed(fs, custom[i], i), custom, i + 1)
  }

  lemma FindExactly(names: seq<string>, name: string, i: nat, j: nat)
    requires i <= |names|
    ensures (forall k :: i <= k < |names| ==> names[k] != name) ==> Find(names, name, i) == |names|
    ensures i <= j < |names| && names[j] == name && (forall k :: i <= k < j ==> names[k] != name) ==>
              Find(names, name, i) == j
  {
    hide Find;
    var at := Find(names, name, i);
    assert at < j < |names| ==> names[at] == name;
  }

  // One request makes the first field with the name, from its place on, change places with the field there.
  lemma PlacedExactly<T, P>(fs: seq<Field<T, P>>, name: string, i: nat, j: nat)
    ensures (forall k :: i <= k < |fs| ==> fs[k].name != name) ==> Placed(fs, name, i) == fs
    ensures i <= j < |fs| && fs[j].name == name && (forall k :: i <= k < j ==> fs[k].name != name) ==>
              var r := Placed(fs, name, i);
              r[i] == fs[j] && r[j] == fs[i] && forall k :: 0 <= k < |fs| && k != i && k != j ==> r[k] == fs[k]
  {
    hide Find, NamesOf;
    if i <= |fs| {
      FindExactly(NamesOf(fs), name, i, j);
    }
  }

  lemma SwappedPermutes<A>(s: seq<A>, i: nat, j: nat)
    requires i < |s| && j < |s|
    ensures multiset(Swapped(s, i, j)) == multiset(s)
  {
  }

  lemma PlacedPermutes<T, P>(fs: seq<Field<T, P>>, name: string, i: nat)
    ensures multiset(Placed(fs, name, i)) == multiset(fs)
  {
    hide Swapped, NamesOf;
    if i <= |fs| && Find(NamesOf(fs), name, i) < |fs| {
      SwappedPermutes(fs, i, Find(NamesOf(fs), name, i));
    }
  }

  lemma PlacedDistinct<T, P>(fs: seq<Field<T, P>>, name: string, i: nat)
    requires Distinct(NamesOf(fs))
    ensures Distinct(NamesOf(Placed(fs, name, i)))
  {
    hide Find, NamesOf;
    var names, after := NamesOf(fs), NamesOf(Placed(fs, name, i));
    var j := if i <= |fs| then Find(names, name, i) else |fs|;
    if j < |fs| {
      assert after == Swapped(names, i, j);
    } else {
      assert after == names;
    }
  }

  // Names, types and parsers stay together: the fields are a permutation of the original ones.
  lemma {:induction false} ReorderedPermutes<T, P>(fs: seq<Field<T, P>>, custom: seq<string>, i: nat)
    ensures multiset(Reordered(fs, custom, i)) == multiset(fs)
    decreases |custom| - i
  {
    hide Placed;
    if i < |custom| {
      PlacedPermutes(fs, custom[i], i);
      ReorderedPermutes(Placed(fs, custom[i], i), custom, i + 1);
    }
  }

  // The fields before i have been placed.
  ghost predicate PlacedUpTo<T, P>(fs: seq<Field<T, P>>, custom: seq<string>, i: nat) {
    i <= |custom| && i <= |fs| && forall k :: 0 <= k < i ==> fs[k].name == custom[k]
  }

  lemma {:induction false} PlacedInOrder<T, P>(fs: seq<Field<T, P>>, custom: seq<string>, i: nat)
    requires PlacedUpTo(fs, custom, i) && Distinct(custom)
    requires forall k :: 0 <= k < |custom| ==> custom[k] in NamesOf(fs)
    ensures |custom| <= |fs| && PlacedUpTo(Reordered(fs, custom, i), custom, |custom|)
    decreases |custom| - i
  {
    if i < |custom| {
      var names := NamesOf(fs);
      var at :| 0 <= at < |names| && names[at] == custom[i];
      assert at >= i;
      var j := Find(names, custom[i], i);
      assert j <= at;
      PlacedHas(fs, custom, i, j);
      PlacedInOrder(Placed(fs, custom[i], i), custom, i + 1);
    }
  }

  lemma PlacedHas<T, P>(fs: seq<Field<T, P>>, custom: seq<string>, i: nat, j: nat)
    requires i < |custom| && i <= j < |fs| && j == Find(NamesOf(fs), custom[i], i) && PlacedUpTo(fs, custom, i)
    requires forall k :: 0 <= k < |custom| ==> custom[k] in NamesOf(fs)
    ensures PlacedUpTo(Placed(fs, custom[i], i), custom, i + 1)
    ensures forall k :: 0 <= k < |custom| ==> custom[k] in NamesOf(Placed(fs, custom[i], i))
  {
    hide Distinct, NamesOf, Find;
    PlacedPermutes(fs, custom[i], i);
    PlacedAt(fs, custom, i, j);
    forall k | 0 <= k < |custom| ensures custom[k] in NamesOf(Placed(fs, custom[i], i)) {
      NamesIn(fs, Placed(fs, custom[i], i), custom[k]);
    }
  }

  lemma PlacedAt<T, P>(fs: seq<Field<T, P>>, custom: seq<string>, i: nat, j: nat)
    requires i < |custom| && i <= j < |fs| && j == Find(NamesOf(fs), custom[i], i) && PlacedUpTo(fs, custom, i)
    ensures PlacedUpTo(Placed(fs, custom[i], i), custom, i + 1)
  {
  }

  lemma NamesIn<T, P>(fs: seq<Field<T, P>>, gs: seq<Field<T, P>>, name: string)
    requires multiset(fs) == multiset(gs) && name in NamesOf(fs)
    ensures name in NamesOf(gs)
  {
    var k :| 0 <= k < |fs| && NamesOf(fs)[k] == name;
    assert fs[k] in multiset(fs);
    assert fs[k] in gs;
    var m :| 0 <= m < |gs| && gs[m] == fs[k];
    assert NamesOf(gs)[m] == name;
  }

  // Distinct names stay distinct when fields change places.
  lemma {:induction false} DistinctStays<T, P>(fs: seq<Field<T, P>>, custom: seq<string>, i: nat)
    requires Distinct(NamesOf(fs))
    ensures Distinct(NamesOf(Reordered(fs, custom, i)))
    decreases |custom| - i
  {
    hide Placed, Distinct;
    if i < |custom| {
      PlacedDistinct(fs, custom[i], i);
      DistinctStays(Placed(fs, custom[i], i), custom, i + 1);
    }
  }

  // The requested names come first, in the requested order, exactly if they are distinct and all there.
  lemma RequestedFirst<T, P>(fs: seq<Field<T, P>>, custom: seq<string>)
    requires Distinct(NamesOf(fs))
    ensures custom <= NamesOf(Reordered(fs, custom, 0))
       <==> Distinct(custom) && forall k :: 0 <= k < |custom| ==> custom[k] in NamesOf(fs)
  {
    hide Reordered;
    var r := Reordered(fs, custom, 0);
    if custom <= NamesOf(r) {
      DistinctStays(fs, custom, 0);
      ReorderedPermutes(fs, custom, 0);
      forall k | 0 <= k < |custom| ensures custom[k] in NamesOf(fs) {
        assert NamesOf(r)[k] == custom[k];
        NamesIn(r, fs, custom[k]);
      }
    }
    if Distinct(custom) && forall k :: 0 <= k < |custom| ==> custom[k] in NamesOf(fs) {
      PlacedInOrder(fs, custom, 0);
      assert custom == NamesOf(r)[..|custom|];
    }
  }
}
