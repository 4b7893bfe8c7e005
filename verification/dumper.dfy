/**
 The pretty printer.
 */
module Dumpers {
  import opened Forms
  import opened Printing
  import opened Tokenizers

  lemma EscapedLast(s: string, i: nat)
    requires i < |s|
    ensures Escaped(s[..i + 1]) == Escaped(s[..i]) + if s[i] == '"' then ['\\', '"'] else [s[i]]
  {
    EscapedConcat(s[..i], [s[i]]);
    assert s[..i + 1] == s[..i] + [s[i]];
    assert [s[i]][1..] == "";
  }

  lemma {:induction false} EscapedConcat(a: string, b: string)
    ensures Escaped(a + b) == Escaped(a) + Escaped(b)
    decreases |a|
  {
    if a == "" {
      assert a + b == b;
      assert Escaped(a) + Escaped(b) == Escaped(b);
    } else {
      assert (a + b)[1..] == a[1..] + b;
      EscapedConcat(a[1..], b);
      Grouped(if a[0] == '"' then ['\\', '"'] else [a[0]], Escaped(a[1..]), Escaped(b));
    }
  }

  // Copies src with its quotes escaped; dst is twice as large, so nothing is cut off.
  method Escape(src: string) returns (text: string)
    ensures text == Escaped(src)
  {
    hide Escaped;
    var dst := new char[2 * |src| + 1];
    var i, j := 0, 0;
    NoneEscaped();
    assert src[..0] == "";
    while i < |src| && j < 2 * |src|
      invariant i <= |src| && j <= 2 * i
      invariant dst[..j] == Escaped(src[..i])
      decreases |src| - i
    {
      EscapedLast(src, i);
      ghost var before := dst[..j];
      if src[i] == '"' {
        dst[j] := '\\';
        j := j + 1;
      }
      dst[j] := src[i];
      assert dst[..j + 1] == before + if src[i] == '"' then ['\\', '"'] else [src[i]];
      i := i + 1;
      j := j + 1;
    }
    assert src[..i] == src;
    text := dst[..j];
  }

  lemma NoneEscaped()
    ensures Escaped("") == ""
  {
  }

  lemma DumpIs(t: Tree, level: nat, first: bool)
    requires !HasFloat(t)
    ensures !t.Seq? ==> !t.Float? && Dump(t, level, first) == (if level != 0 && !first then " " else "") + AtomText(t)
    ensures t.Seq? ==>
              && (forall i :: 0 <= i < |t.items| ==> !HasFloat(t.items[i]))
              && Dump(t, level, first)
                 == (if level != 0 && !first then " " else "")
                    + (OpenText(level) + DumpItems(t.items, level + 1, true) + CloseText(t.items, level))
  {
  }

  lemma {:induction false} DumpLast(items: seq<Tree>, level: nat, first: bool, i: nat)
    requires i < |items| && forall k :: 0 <= k < |items| ==> !HasFloat(items[k])
    ensures DumpItems(items[..i + 1], level, first)
         == DumpItems(items[..i], level, first) + Dump(items[i], level, first && i == 0)
    decreases i
  {
    hide Dump, HasFloat;
    if i == 0 {
      assert items[..1] == [items[0]] && [items[0]][1..] == [];
      assert items[..0] == [];
    } else {
      DumpLast(items[1..], level, false, i - 1);
      assert items[..i + 1][1..] == items[1..][..i];
      assert items[..i][1..] == items[1..][..i - 1];
      Grouped(Dump(items[0], level, first), DumpItems(items[1..][..i - 1], level, false), Dump(items[i], level, false));
    }
  }

  class Dumper {
    var out: string
    var level: nat

    constructor ()
      ensures out == "" && level == 0
    {
      out, level := "", 0;
    }

    method Cat(s: string)
      modifies this`out
      ensures out == old(out) + s
    {
      out := out + s;
    }

    // Whether a sequence has an item that is a sequence.
    method HasForms(d: Datum, ghost t: Tree, ghost nodes: set<Datum>) returns (found: bool)
      requires Represents(d, t, nodes) && d.isSeq
      ensures found == HasSeq(t.items)
    {
      found := false;
      var i := 0;
      while i < |d.items|
        invariant i <= |d.items| && !found && forall k :: 0 <= k < i ==> !t.items[k].Seq?
      {
        assert Represents(d.items[i], t.items[i], nodes);
        found := d.items[i].isSeq;
        if found {
          break;
        }
        i := i + 1;
      }
    }

    // Prints an atom.
    method DumpAtom(t: Tree)
      requires !t.Seq? && !t.Float?
      modifies this`out
      ensures out == old(out) + AtomText(t)
    {
      match t {
        case Void => Cat("#v");
        case Null => Cat("#n");
        case Bool(b) => Cat(if b then "#t" else "#f");
        case Int(n) => Cat(Decimal(n));
        case Word(w) => Cat(CString(w));
        case Str(s) =>
          var text := Escape(CString(s));
          Cat("\"" + text + "\"");
      }
    }

    // Prints the datum that is item number index of its form.
    method DumpDatum(d: Datum, index: nat, ghost t: Tree, ghost nodes: set<Datum>)
      requires Represents(d, t, nodes) && !HasFloat(t)
      modifies this
      ensures level == old(level) && out == old(out) + Dump(t, level, index == 0)
      decreases t, 2
    {
      hide HasFloat, AtomText, Dump, HasSeq, OpenText, CloseText, DumpItems, Represents;
      SequenceData(d, t, nodes);
      DumpIs(t, level, index == 0);
      ghost var start, prefix := out, if level != 0 && index != 0 then " " else "";
      if level != 0 {
        if index != 0 {
          Cat(" ");
        }
      }
      assert out == start + prefix;
      if d.isSeq {
        DumpSequence(d, t, nodes);
        Grouped(start, prefix, OpenText(level) + DumpItems(t.items, level + 1, true) + CloseText(t.items, level));
      } else {
        DumpAtom(d.atom);
        Grouped(start, prefix, AtomText(t));
      }
    }

    lemma SequenceData(d: Datum, t: Tree, nodes: set<Datum>)
      requires Represents(d, t, nodes)
      ensures (d.isSeq <==> t.Seq?) && (!d.isSeq ==> t == d.atom)
    {
    }

    // Prints a sequence in parentheses.
    method DumpSequence(d: Datum, ghost t: Tree, ghost nodes: set<Datum>)
      requires Represents(d, t, nodes) && d.isSeq && t.Seq?
      requires forall i :: 0 <= i < |t.items| ==> !HasFloat(t.items[i])
      modifies this
      ensures level == old(level)
      ensures out == old(out) + (OpenText(level) + DumpItems(t.items, level + 1, true) + CloseText(t.items, level))
      decreases t, 1
    {
      hide HasFloat, DumpItems, Represents, OpenText, HasSeq;
      ghost var start, open := out, OpenText(level);
      Cat(OpenText(level));
      level := level + 1;
      DumpForm(d, t, nodes);
      ghost var inner := DumpItems(t.items, level, true);
      var hasforms := HasForms(d, t, nodes);
      level := level - 1;
      Cat(if hasforms then "\n" + Spaces(level) + ")" else ")");
      Grouped(start + open, inner, CloseText(t.items, level));
      Grouped(start, open, inner + CloseText(t.items, level));
      Grouped(open, inner, CloseText(t.items, level));
    }

    // Prints the items of a form.
    method DumpForm(d: Datum, ghost t: Tree, ghost nodes: set<Datum>)
      requires Represents(d, t, nodes) && d.isSeq && level > 0
      requires forall i :: 0 <= i < |t.items| ==> !HasFloat(t.items[i])
      modifies this
      ensures level == old(level) && out == old(out) + DumpItems(t.items, level, true)
      decreases t, 0
    {
      hide HasFloat, Dump, DumpItems;
      ghost var start := out;
      var i := 0;
      NoItems(level);
      assert t.items[..0] == [];
      while i < |d.items|
        invariant i <= |d.items| && level == old(level)
        invariant out == start + DumpItems(t.items[..i], level, true)
      {
        assert Represents(d.items[i], t.items[i], nodes);
        DumpLast(t.items, level, true, i);
        DumpDatum(d.items[i], i, t.items[i], nodes);
        Grouped(start, DumpItems(t.items[..i], level, true), Dump(t.items[i], level, i == 0));
        i := i + 1;
      }
      assert t.items[..i] == t.items;
    }

    lemma NoItems(level: nat)
      ensures DumpItems([], level, true) == ""
    {
    }
  }

  // Prints a datum and parses what was printed.
  method Reprint(d: Datum, ghost t: Tree, ghost nodes: set<Datum>) returns (root: Datum, ghost all: set<Datum>)
    requires Represents(d, t, nodes) && Printable(t) && (t.Seq? || t.Str?)
    ensures Represents(root, Seq([t]), all)
  {
    hide Printable, Dump, HasFloat, Parsed;
    PrintParse(t);
    var printer := new Dumper();
    printer.DumpDatum(d, 0, t, nodes);
    assert "" + Dump(t, 0, true) == Dump(t, 0, true);
    root, all := Parse(printer.out);
  }
}
