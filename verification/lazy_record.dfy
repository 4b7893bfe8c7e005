/**
 The lazy record parser: fields are parsed on demand, in any order, and scanning goes only as far as it must.
 */
module LazyRecords {
  import opened Scanning
  import opened Integers
  import opened Quoted
  import opened Collections
  import opened Records

  // Bit 31 of a position says that the field has been parsed.
  predicate Flagged(x: int) {
    x / FLAG % 2 == 1
  }

  function Mask(x: int): int {
    x % FLAG
  }

  function Mark(x: int): int {
    if Flagged(x) then x else x + FLAG
  }

  lemma Marked(x: int)
    requires 0 <= x < FLAG
    ensures !Flagged(x) && Mask(x) == x && Flagged(Mark(x)) && Mask(Mark(x)) == x
  {
  }

  // The flag can be told from the position exactly in records that end below 2^31.
  lemma PositionsFit(end: nat)
    ensures (forall p: nat :: p <= end ==> !Flagged(p) && Mask(Mark(p)) == p) <==> end < 2147483648
  {
    if end < FLAG {
      forall p: nat | p <= end ensures !Flagged(p) && Mask(Mark(p)) == p {
        Marked(p);
      }
    } else {
      assert Flagged(FLAG);
    }
  }

  // An entry is a position, with or without the flag.
  predicate IsEntry(x: int, p: nat) {
    p < FLAG && (x == p || x == p + FLAG)
  }

  lemma EntryMasks(x: int, p: nat)
    requires IsEntry(x, p)
    ensures Mask(x) == p && if Flagged(x) then x == p + FLAG else x == p
    ensures IsEntry(Mark(x), p) && Flagged(Mark(x)) && Mask(Mark(x)) == p
  {
  }

  // Scans over field k, parsing it if it can be quoted.
  method ScanField(r: Record, k: nat, p: nat) returns (quoted: bool, text: seq<byte>, e: nat)
    requires r.Ok() && p <= r.end
    ensures e == Next(r, k, p)
    ensures quoted <==> k < r.Size() && IsQuoted(r.layout.kinds[k])
    ensures quoted ==> FieldIn(r, k, Begin(r, p), e) == Text(text)
  {
    e := ReachValuePos(r.data, r.layout.d, r.layout.multi, p, r.end);
    quoted, text := false, [];
    if k < r.Size() {
      match r.layout.kinds[k] {
        case QStr =>
          quoted := true;
          text, e := ParseQStr(r.data, e, r.end);
        case OptQStr =>
          quoted := true;
          if r.data[e] == QUOTE {
            text, e := ParseQStr(r.data, e, r.end);
          } else {
            text, e := ParseStr(r.data, r.layout.d, e, r.end);
          }
        case _ =>
          e := ReachDelimPos(r.data, r.layout.d, e, r.end);
      }
    } else {
      e := ReachDelimPos(r.data, r.layout.d, e, r.end);
    }
  }

  lemma StrStopsAtDelimiter(data: seq<byte>, d: byte, q: nat, end: nat)
    requires q <= end <= |data|
    ensures StrStop(data, d, q, ReachDelim(data, d, q, end)) == ReachDelim(data, d, q, end)
  {
  }

  // Parses field k, which lies between the stop p of the field before it and its own stop e.
  method ParseField(r: Record, k: nat, p: nat, e: nat) returns (v: Value)
    requires r.Ok() && p <= r.end && e == Next(r, k, p)
    requires k < r.Size() && !IsQuoted(r.layout.kinds[k])
    ensures v == FieldIn(r, k, Begin(r, p), e)
  {
    var q := ReachValuePos(r.data, r.layout.d, r.layout.multi, p, r.end);
    assert e == ReachDelim(r.data, r.layout.d, q, r.end);
    match r.layout.kinds[k] {
      case Int =>
        var n, i, ok, leaves := ParseInt64(r.data, q, r.layout.d, r.end);
        v := Integer(n);
      case Array(ints, fd) =>
        var items := ParseArray(r.data, r.layout.d, ArrayElem(ints), fd, q, e, r.end);
        v := Items(items);
      case Dict(el, pd, fd) =>
        var dict := ParseDict(r.data, r.layout.d, el, pd, fd, q, e, r.end);
        v := Entries(dict);
      case _ =>
        StrStopsAtDelimiter(r.data, r.layout.d, q, r.end);
        var t, i := ParseStr(r.data, r.layout.d, q, e);
        v := Text(t);
    }
  }

  class RecordParser {
    const r: Record
    const dpos: array<int>
    const slots: array<Value>
    var pos: nat
    var nextDelim: nat

    // Everything scanned so far agrees with the eager scan.
    ghost predicate Sound()
      reads this, dpos, slots
    {
      && r.Ok() && dpos.Length == r.Size() + 1 && slots.Length == r.Size()
      && nextDelim <= r.Size() + 1
      && (forall k :: 0 <= k < nextDelim ==> IsEntry(dpos[k], Cut(r, k)))
      && (forall k :: nextDelim <= k <= r.Size() ==> dpos[k] == 0)
      && (forall k :: 0 <= k < r.Size() && Flagged(dpos[k]) ==> k < nextDelim && slots[k] == Fields(r)[k])
      && (forall k :: 0 <= k < r.Size() && k < nextDelim && IsQuoted(r.layout.kinds[k]) ==> Flagged(dpos[k]))
    }

    ghost predicate Valid()
      reads this, dpos, slots
    {
      Sound() && pos == Cut(r, nextDelim)
    }

    constructor (r: Record)
      requires r.Ok()
      ensures Valid() && fresh(dpos) && fresh(slots)
      ensures this.r == r && nextDelim == 0 && forall k :: 0 <= k <= r.Size() ==> !Flagged(dpos[k])
    {
      this.r := r;
      dpos := new int[r.Size() + 1](_ => 0);
      slots := new Value[r.Size()];
      pos, nextDelim := r.start, 0;
    }

    // The loop body: notes where field nextDelim begins and scans over it.
    method ScanNext(p: nat) returns (e: nat)
      requires Sound() && nextDelim <= r.Size() && p == Cut(r, nextDelim)
      modifies this`nextDelim, dpos, slots
      ensures Sound() && nextDelim == old(nextDelim) + 1 && e == Cut(r, nextDelim)
      ensures forall k :: 0 <= k <= r.Size() && k != old(nextDelim) ==> dpos[k] == old(dpos[k])
      ensures var k := old(nextDelim);
              k < r.Size() && !IsQuoted(r.layout.kinds[k]) ==> !Flagged(dpos[k]) && slots[k] == old(slots[k])
      ensures forall k :: 0 <= k < r.Size() && k != old(nextDelim) ==> slots[k] == old(slots[k])
    {
      hide FieldIn, Next, Fields, Cut, Flagged, Mark, Mask, IsEntry, Eager, Begin;
      CutInRecord(r, nextDelim);
      Marked(p);
      CutNext(r, nextDelim);
      dpos[nextDelim] := p;
      var quoted, text, q := ScanField(r, nextDelim, p);
      if quoted {
        FieldIsCut(r, nextDelim);
        slots[nextDelim] := Text(text);
        dpos[nextDelim] := Mark(dpos[nextDelim]);
      }
      EntryOf(p);
      e := q;
      nextDelim := nextDelim + 1;
    }

    // Reads field idx.
    method Read(idx: nat) returns (v: Value)
      requires Valid() && idx < r.Size()
      modifies this`pos, this`nextDelim, dpos, slots
      ensures Valid() && v == Fields(r)[idx]
      ensures Flagged(dpos[idx])
      ensures nextDelim == if old(Flagged(dpos[idx])) || idx + 2 <= old(nextDelim) then old(nextDelim) else idx + 2
      ensures forall k :: 0 <= k < old(nextDelim) ==> Mask(dpos[k]) == old(Mask(dpos[k]))
      ensures forall k :: 0 <= k < r.Size() && k != idx && old(k < nextDelim) ==>
                            dpos[k] == old(dpos[k]) && slots[k] == old(slots[k])
      ensures forall k :: 0 <= k < r.Size() && k != idx && !IsQuoted(r.layout.kinds[k]) ==>
                            (Flagged(dpos[k]) <==> old(Flagged(dpos[k])))
    {
      hide FieldIn, Next, Fields, Cut, Flagged, Mark, Mask, IsEntry, Eager, Begin;
      if !Flagged(dpos[idx]) {
        var nextIdx := idx + 1;
        if nextIdx >= nextDelim {
          var p := pos;
          var more := true;
          while more
            invariant Sound() && p == Cut(r, nextDelim) && old(nextDelim) <= nextDelim
            invariant nextDelim <= nextIdx + 1 && (more <==> nextDelim <= nextIdx)
            invariant forall k :: 0 <= k < old(nextDelim) ==> dpos[k] == old(dpos[k])
            invariant forall k :: 0 <= k < r.Size() && old(k < nextDelim) ==> slots[k] == old(slots[k])
            invariant forall k :: old(nextDelim) <= k < r.Size() && !IsQuoted(r.layout.kinds[k]) ==> !Flagged(dpos[k])
            decreases nextIdx + 1 - nextDelim
          {
            p := ScanNext(p);
            more := nextDelim <= nextIdx;
          }
          assert nextDelim == nextIdx + 1;
          pos := p;
        }
        if !Flagged(dpos[idx]) {
          EntryMasks(dpos[idx], Cut(r, idx));
          EntryMasks(dpos[nextIdx], Cut(r, nextIdx));
          CutInRecord(r, idx);
          CutNext(r, idx);
          FieldIsCut(r, idx);
          v := ParseField(r, idx, dpos[idx], Mask(dpos[nextIdx]));
          dpos[idx] := Mark(dpos[idx]);
          slots[idx] := v;
        } else {
          v := slots[idx];
        }
      } else {
        v := slots[idx];
      }
    }

    // Any sequence of reads, with repeats, gives the values of the eager scan.
    method ReadAll(order: seq<nat>) returns (vs: seq<Value>)
      requires Valid() && forall j :: 0 <= j < |order| ==> order[j] < r.Size()
      modifies this`pos, this`nextDelim, dpos, slots
      ensures Valid() && |vs| == |order| && forall j :: 0 <= j < |order| ==> vs[j] == Fields(r)[order[j]]
      ensures old(nextDelim) <= nextDelim && forall k :: 0 <= k < old(nextDelim) ==> Mask(dpos[k]) == old(Mask(dpos[k]))
    {
      hide FieldIn, Next, Fields, Cut, Flagged, Mark, Mask, IsEntry, Eager, Begin;
      vs := [];
      for i := 0 to |order|
        invariant Valid() && |vs| == i && forall j :: 0 <= j < i ==> vs[j] == Fields(r)[order[j]]
        invariant old(nextDelim) <= nextDelim
        invariant forall k :: 0 <= k < old(nextDelim) ==> Mask(dpos[k]) == old(Mask(dpos[k]))
      {
        var v := Read(order[i]);
        vs := vs + [v];
      }
    }
  }

  lemma CutInRecord(r: Record, k: nat)
    requires r.Ok()
    ensures Cut(r, k) <= r.end < FLAG
  {
  }

  lemma CutNext(r: Record, k: nat)
    requires r.Ok()
    ensures Cut(r, k + 1) == Next(r, k, Cut(r, k))
  {
  }

  lemma EntryOf(p: nat)
    requires p < FLAG
    ensures IsEntry(p, p) && IsEntry(Mark(p), p)
  {
    Marked(p);
  }
}
