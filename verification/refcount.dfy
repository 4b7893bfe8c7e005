/**
 Reference counting of container values in memory.
 */
module RefCounting {

  // The types of values: plain values with the number that resets them, strings, and containers of other types.
  datatype Ty = Plain(zero: int) | Bytes | Array(elem: Ty) | Dict(elem: Ty) | Struct(fields: seq<Ty>)

  function MaxRank(tys: seq<Ty>): (r: nat)
    ensures forall i :: 0 <= i < |tys| ==> Rank(tys[i]) <= r
  {
    if tys == [] then 0
    else
      var a, b := Rank(tys[0]), MaxRank(tys[1..]);
      if a > b then a else b
  }

  // How deep a type is nested.
  function Rank(t: Ty): nat {
    match t
    case Plain(_) => 0
    case Bytes => 0
    case Array(elem) => Rank(elem) + 1
    case Dict(elem) => Rank(elem) + 1
    case Struct(fields) => MaxRank(fields) + 1
  }

  type Address = nat

  datatype Slot = Value(v: int) | Null | Ref(o: Address)

  // A counted value. The slots are the fields of a structure, the elements of an array, or the keys and values of a
  // dictionary in turn; a string has none. A freed cell is not live.
  datatype Cell = Cell(live: bool, ty: Ty, nref: int, slots: seq<Slot>)

  type Place = (Address, nat)

  // The type of slot i of a value.
  function SlotTy(t: Ty, i: nat): Ty {
    match t
    case Array(elem) => elem
    case Dict(elem) => if i % 2 == 0 then Bytes else elem
    case Struct(fields) => if i < |fields| then fields[i] else Plain(0)
    case _ => Plain(0)
  }

  // Types nest strictly.
  lemma SlotRank(t: Ty, i: nat)
    requires !SlotTy(t, i).Plain?
    ensures Rank(SlotTy(t, i)) < Rank(t)
  {
  }

  // ---------- counting references ----------

  // The slots from k on that refer to o; released slots do not count.
  function CountSlots(slots: seq<Slot>, p: Address, rel: set<Place>, o: Address, k: nat): (n: nat)
    ensures forall i :: k <= i < |slots| && slots[i] == Ref(o) && (p, i) !in rel ==> n > 0
    decreases |slots| - k
  {
    if k >= |slots| then 0
    else (if slots[k] == Ref(o) && (p, k) !in rel then 1 else 0) + CountSlots(slots, p, rel, o, k + 1)
  }

  function CountCell(c: Cell, p: Address, rel: set<Place>, o: Address): nat {
    if c.live then CountSlots(c.slots, p, rel, o, 0) else 0
  }

  // The slots of live values from p on that refer to o.
  function Total(cells: seq<Cell>, rel: set<Place>, o: Address, p: Address): (n: nat)
    ensures forall q :: p <= q < |cells| ==> CountCell(cells[q], q, rel, o) <= n
    decreases |cells| - p
  {
    if p >= |cells| then 0 else CountCell(cells[p], p, rel, o) + Total(cells, rel, o, p + 1)
  }

  lemma {:induction false} CountRelease(slots: seq<Slot>, p: Address, rel: set<Place>, s: Place, o: Address, k: nat)
    requires s !in rel
    ensures var counts := s.0 == p && k <= s.1 < |slots| && slots[s.1] == Ref(o);
            CountSlots(slots, p, rel, o, k) == CountSlots(slots, p, rel + {s}, o, k) + if counts then 1 else 0
    decreases |slots| - k
  {
    if k < |slots| {
      CountRelease(slots, p, rel, s, o, k + 1);
    }
  }

  // Replacing one slot changes the count by what the slot counted.
  lemma {:induction false} CountReplace(slots: seq<Slot>, p: Address, rel: set<Place>, o: Address, i: nat, s: Slot,
                                        k: nat)
    requires i < |slots| && k <= |slots|
    ensures var before := if k <= i && slots[i] == Ref(o) && (p, i) !in rel then 1 else 0;
            var after := if k <= i && s == Ref(o) && (p, i) !in rel then 1 else 0;
            CountSlots(slots[i := s], p, rel, o, k) - after == CountSlots(slots, p, rel, o, k) - before
    decreases |slots| - k
  {
    if k < |slots| {
      CountReplace(slots, p, rel, o, i, s, k + 1);
    }
  }

  lemma {:induction false} TotalRelease(cells: seq<Cell>, rel: set<Place>, s: Place, o: Address, p: Address)
    requires s !in rel
    ensures var counts := p <= s.0 < |cells| && cells[s.0].live
                          && s.1 < |cells[s.0].slots| && cells[s.0].slots[s.1] == Ref(o);
            Total(cells, rel, o, p) == Total(cells, rel + {s}, o, p) + if counts then 1 else 0
    decreases |cells| - p
  {
    if p < |cells| {
      CountRelease(cells[p].slots, p, rel, s, o, 0);
      TotalRelease(cells, rel, s, o, p + 1);
    }
  }

  // Replacing one cell changes the total by what the cell counted.
  lemma {:induction false} TotalReplace(cells: seq<Cell>, rel: set<Place>, o: Address, a: Address, c: Cell, p: Address)
    requires a < |cells| && p <= |cells|
    ensures var before := if p <= a then CountCell(cells[a], a, rel, o) else 0;
            var after := if p <= a then CountCell(c, a, rel, o) else 0;
            Total(cells[a := c], rel, o, p) - after == Total(cells, rel, o, p) - before
    decreases |cells| - p
  {
    hide CountCell;
    if p < |cells| {
      TotalReplace(cells, rel, o, a, c, p + 1);
    }
  }

  // ---------- the state of memory ----------

  predicate IsLive(cells: seq<Cell>, o: Address) {
    o < |cells| && cells[o].live
  }

  // A slot holds a value of its type.
  predicate Fits(cells: seq<Cell>, t: Ty, i: nat, s: Slot) {
    match s
    case Value(_) => SlotTy(t, i).Plain?
    case Null => !SlotTy(t, i).Plain?
    case Ref(o) => o < |cells| && cells[o].ty == SlotTy(t, i) && !cells[o].ty.Plain?
  }

  // The count of o is right, give or take.
  predicate Counted(cells: seq<Cell>, ext: multiset<Address>, rel: set<Place>, o: Address, extra: int) {
    o < |cells| && cells[o].nref == Total(cells, rel, o, 0) + ext[o] + extra
  }

  // Slots of live values fit and, unless they are released, refer to live values.
  ghost predicate Closed(cells: seq<Cell>, ext: multiset<Address>, rel: set<Place>) {
    && (forall p: nat, i: nat :: IsLive(cells, p) && i < |cells[p].slots| ==>
                                   Fits(cells, cells[p].ty, i, cells[p].slots[i]))
    && (forall p: nat, i: nat ::
          IsLive(cells, p) && i < |cells[p].slots| && cells[p].slots[i].Ref? && (p, i) !in rel ==>
            IsLive(cells, cells[p].slots[i].o))
    && (forall o :: o in ext ==> IsLive(cells, o))
  }

  // Every count is right, but that of o is too large by one.
  ghost predicate OffByOne(cells: seq<Cell>, ext: multiset<Address>, rel: set<Place>, o: Address) {
    && Closed(cells, ext, rel) && IsLive(cells, o) && Counted(cells, ext, rel, o, 1)
    && forall x: nat :: IsLive(cells, x) && x != o ==> Counted(cells, ext, rel, x, 0)
  }

  ghost predicate Sound(cells: seq<Cell>, ext: multiset<Address>, rel: set<Place>) {
    && Closed(cells, ext, rel)
    && forall x: nat :: IsLive(cells, x) ==> Counted(cells, ext, rel, x, 0)
  }

  // Owners of released slots are nested deeper than o.
  ghost predicate Above(cells: seq<Cell>, rel: set<Place>, o: Address) {
    o < |cells| && forall s :: s in rel ==> s.0 < |cells| && Rank(cells[s.0].ty) > Rank(cells[o].ty)
  }

  // What giving up a reference to o leaves alone: only values nested less deeply than o can go or lose references,
  // the slots of the others stay, and no value that was held is left over without a reference.
  ghost predicate Steady(before: seq<Cell>, after: seq<Cell>, o: Address) {
    && |after| == |before|
    && (forall x: nat :: x < |after| ==> after[x].ty == before[x].ty)
    && (forall x: nat :: IsLive(after, x) ==> IsLive(before, x) && after[x].nref <= before[x].nref)
    && (forall x: nat :: IsLive(after, x) && after[x].nref == 0 ==> before[x].nref == 0)
    && (forall x: nat :: x < |after| && x != o && o < |after| && Rank(before[x].ty) >= Rank(before[o].ty) ==>
                           after[x] == before[x])
    && (forall x: nat :: IsLive(after, x) && x != o ==> after[x].slots == before[x].slots)
  }

  // Giving up the reference to q in a slot of p leaves alone all other values nested as deeply as q.
  ghost predicate Beside(before: seq<Cell>, after: seq<Cell>, p: Address, q: Address) {
    && q < |before| == |after|
    && forall x: nat :: x < |before| && x != p && x != q && Rank(before[x].ty) >= Rank(before[q].ty) ==>
                          after[x] == before[x]
  }

  // Marking a slot as released takes one off what counts for the value it refers to.
  lemma Release(cells: seq<Cell>, ext: multiset<Address>, rel: set<Place>, p: Address, i: nat)
    requires Sound(cells, ext, rel) && IsLive(cells, p) && i < |cells[p].slots| && cells[p].slots[i].Ref? &&
             (p, i) !in rel
    ensures OffByOne(cells, ext, rel + {(p, i)}, cells[p].slots[i].o)
  {
    hide Total, Fits;
    var q, more := cells[p].slots[i].o, rel + {(p, i)};
    forall x: nat | IsLive(cells, x)
      ensures Counted(cells, ext, more, x, if x == q then 1 else 0)
    {
      assert Counted(cells, ext, rel, x, 0);
      TotalRelease(cells, rel, (p, i), x, 0);
    }
    forall p1: nat, i1: nat |
      IsLive(cells, p1) && i1 < |cells[p1].slots| && cells[p1].slots[i1].Ref? && (p1, i1) !in more
      ensures IsLive(cells, cells[p1].slots[i1].o)
    {
      assert (p1, i1) !in rel;
    }
  }

  // With the count taken down, everything is right.
  lemma TakenDown(cells: seq<Cell>, ext: multiset<Address>, rel: set<Place>, o: Address)
    requires OffByOne(cells, ext, rel, o)
    ensures cells[o].nref > 0 && Sound(cells[o := cells[o].(nref := cells[o].nref - 1)], ext, rel)
  {
    hide Total;
    var c := cells[o].(nref := cells[o].nref - 1);
    var cells1 := cells[o := c];
    forall x: nat | IsLive(cells1, x) ensures Counted(cells1, ext, rel, x, 0) {
      assert Counted(cells, ext, rel, x, if x == o then 1 else 0);
      TotalReplace(cells, rel, x, o, c, 0);
    }
    SameShape(cells, ext, rel, o, c);
  }

  // Changing only a count keeps the structure.
  lemma SameShape(cells: seq<Cell>, ext: multiset<Address>, rel: set<Place>, o: Address, c: Cell)
    requires Closed(cells, ext, rel) && o < |cells| && c == cells[o].(nref := c.nref)
    ensures Closed(cells[o := c], ext, rel)
  {
    var cells1 := cells[o := c];
    forall p: nat, i: nat | IsLive(cells1, p) && i < |cells1[p].slots|
      ensures Fits(cells1, cells1[p].ty, i, cells1[p].slots[i])
      ensures cells1[p].slots[i].Ref? && (p, i) !in rel ==> IsLive(cells1, cells1[p].slots[i].o)
    {
      assert Fits(cells, cells[p].ty, i, cells[p].slots[i]);
    }
  }

  // Emptying a released slot, or resetting a plain one, and unmarking it changes no count.
  lemma Cleared(cells: seq<Cell>, ext: multiset<Address>, rel: set<Place>, p: Address, i: nat, s: Slot)
    requires IsLive(cells, p) && i < |cells[p].slots| && !s.Ref? && Fits(cells, cells[p].ty, i, s)
    requires Sound(cells, ext, if cells[p].slots[i].Ref? then rel + {(p, i)} else rel)
    requires (p, i) !in rel
    ensures Sound(cells[p := cells[p].(slots := cells[p].slots[i := s])], ext, rel)
  {
    hide Total, CountSlots;
    var more := if cells[p].slots[i].Ref? then rel + {(p, i)} else rel;
    var c := cells[p].(slots := cells[p].slots[i := s]);
    var cells1 := cells[p := c];
    forall x: nat | IsLive(cells1, x) ensures Counted(cells1, ext, rel, x, 0) {
      assert Counted(cells, ext, more, x, 0);
      CountReplace(cells[p].slots, p, rel, x, i, s, 0);
      TotalReplace(cells, rel, x, p, c, 0);
      if cells[p].slots[i].Ref? {
        TotalRelease(cells, rel, (p, i), x, 0);
      }
    }
    forall p1: nat, i1: nat | IsLive(cells1, p1) && i1 < |cells1[p1].slots|
      ensures Fits(cells1, cells1[p1].ty, i1, cells1[p1].slots[i1])
      ensures cells1[p1].slots[i1].Ref? && (p1, i1) !in rel ==> IsLive(cells1, cells1[p1].slots[i1].o)
    {
      if (p1, i1) != (p, i) {
        assert Fits(cells, cells[p1].ty, i1, cells[p1].slots[i1]);
        assert (p1, i1) !in rel ==> (p1, i1) !in more;
      } else {
        assert cells1[p1].slots[i1] == s;
      }
    }
  }

  // A value without references, and with none of its own, can go.
  lemma Freed(cells: seq<Cell>, ext: multiset<Address>, rel: set<Place>, o: Address)
    requires Sound(cells, ext, rel) && IsLive(cells, o) && cells[o].nref == 0
    requires forall i :: 0 <= i < |cells[o].slots| ==> !cells[o].slots[i].Ref?
    ensures Sound(cells[o := cells[o].(live := false)], ext, rel)
  {
    hide Total, CountSlots;
    var c := cells[o].(live := false);
    var cells1 := cells[o := c];
    assert Counted(cells, ext, rel, o, 0);
    forall x: nat | IsLive(cells1, x) ensures Counted(cells1, ext, rel, x, 0) {
      assert Counted(cells, ext, rel, x, 0);
      NoReferences(cells[o].slots, o, rel, x, 0);
      TotalReplace(cells, rel, x, o, c, 0);
    }
    forall p: nat, i: nat | IsLive(cells1, p) && i < |cells1[p].slots|
      ensures Fits(cells1, cells1[p].ty, i, cells1[p].slots[i])
      ensures cells1[p].slots[i].Ref? && (p, i) !in rel ==> IsLive(cells1, cells1[p].slots[i].o)
    {
      assert Fits(cells, cells[p].ty, i, cells[p].slots[i]);
      if cells[p].slots[i] == Ref(o) && (p, i) !in rel {
        PlaceCounts(cells, rel, o, p, i);
      }
    }
  }

  lemma PlaceCounts(cells: seq<Cell>, rel: set<Place>, o: Address, p: Address, i: nat)
    requires IsLive(cells, p) && i < |cells[p].slots| && cells[p].slots[i] == Ref(o) && (p, i) !in rel
    ensures Total(cells, rel, o, 0) > 0
  {
    assert CountSlots(cells[p].slots, p, rel, o, 0) > 0;
    assert CountCell(cells[p], p, rel, o) <= Total(cells, rel, o, 0);
  }

  lemma {:induction false} NoReferences(slots: seq<Slot>, p: Address, rel: set<Place>, o: Address, k: nat)
    requires forall i :: 0 <= i < |slots| ==> !slots[i].Ref?
    ensures CountSlots(slots, p, rel, o, k) == 0
    decreases |slots| - k
  {
    if k < |slots| {
      NoReferences(slots, p, rel, o, k + 1);
    }
  }

  // A new reference to o, from an empty slot.
  lemma Stored(cells: seq<Cell>, ext: multiset<Address>, p: Address, i: nat, o: Address)
    requires Sound(cells, ext, {}) && IsLive(cells, p) && i < |cells[p].slots| && cells[p].slots[i] == Null
    requires IsLive(cells, o) && Fits(cells, cells[p].ty, i, Ref(o)) && o != p
    ensures var cells1 := cells[p := cells[p].(slots := cells[p].slots[i := Ref(o)])];
            Sound(cells1[o := cells1[o].(nref := cells1[o].nref + 1)], ext, {})
  {
    hide Total, CountSlots, Closed, Fits;
    var cp, co := cells[p].(slots := cells[p].slots[i := Ref(o)]), cells[o].(nref := cells[o].nref + 1);
    var cells1 := cells[p := cp];
    var cells2 := cells1[o := co];
    forall x: nat | IsLive(cells2, x) ensures Counted(cells2, ext, {}, x, 0) {
      assert Counted(cells, ext, {}, x, 0);
      CountReplace(cells[p].slots, p, {}, x, i, Ref(o), 0);
      TotalReplace(cells, {}, x, p, cp, 0);
      TotalReplace(cells1, {}, x, o, co, 0);
    }
    StoredShape(cells, ext, p, i, o);
    SameShape(cells1, ext, {}, o, co);
  }

  lemma StoredShape(cells: seq<Cell>, ext: multiset<Address>, p: Address, i: nat, o: Address)
    requires Closed(cells, ext, {}) && IsLive(cells, p) && i < |cells[p].slots|
    requires IsLive(cells, o) && Fits(cells, cells[p].ty, i, Ref(o))
    ensures Closed(cells[p := cells[p].(slots := cells[p].slots[i := Ref(o)])], ext, {})
  {
    var cells1 := cells[p := cells[p].(slots := cells[p].slots[i := Ref(o)])];
    forall p1: nat, i1: nat | IsLive(cells1, p1) && i1 < |cells1[p1].slots|
      ensures Fits(cells1, cells1[p1].ty, i1, cells1[p1].slots[i1])
      ensures cells1[p1].slots[i1].Ref? ==> IsLive(cells1, cells1[p1].slots[i1].o)
    {
      if (p1, i1) != (p, i) {
        assert Fits(cells, cells[p1].ty, i1, cells[p1].slots[i1]);
      }
    }
  }

  // One more, or one less, reference from outside.
  lemma Held(cells: seq<Cell>, ext: multiset<Address>, o: Address)
    requires Sound(cells, ext, {}) && IsLive(cells, o)
    ensures Sound(cells[o := cells[o].(nref := cells[o].nref + 1)], ext + multiset{o}, {})
  {
    hide Total;
    var c := cells[o].(nref := cells[o].nref + 1);
    var cells1 := cells[o := c];
    forall x: nat | IsLive(cells1, x) ensures Counted(cells1, ext + multiset{o}, {}, x, 0) {
      assert Counted(cells, ext, {}, x, 0);
      TotalReplace(cells, {}, x, o, c, 0);
    }
    SameShape(cells, ext, {}, o, c);
  }

  lemma LetGo(cells: seq<Cell>, ext: multiset<Address>, o: Address)
    requires Sound(cells, ext, {}) && o in ext
    ensures OffByOne(cells, ext - multiset{o}, {}, o)
  {
    hide Total;
    forall x: nat | IsLive(cells, x)
      ensures Counted(cells, ext - multiset{o}, {}, x, if x == o then 1 else 0)
    {
      assert Counted(cells, ext, {}, x, 0);
    }
  }

  // A new cell, without references to it.
  lemma Allocated(cells: seq<Cell>, ext: multiset<Address>, c: Cell)
    requires Sound(cells, ext, {}) && c.live && c.nref == 0
    requires forall i :: 0 <= i < |c.slots| ==> !c.slots[i].Ref? && Fits(cells, c.ty, i, c.slots[i])
    ensures Sound(cells + [c], ext, {})
  {
    hide Total;
    var cells1 := cells + [c];
    forall x: nat | IsLive(cells1, x) ensures Counted(cells1, ext, {}, x, 0) {
      TotalAppend(cells, c, x, 0);
      if x < |cells| {
        assert Counted(cells, ext, {}, x, 0);
      } else {
        NobodyRefers(cells, ext, x, 0);
      }
    }
    forall p: nat, i: nat | IsLive(cells1, p) && i < |cells1[p].slots|
      ensures Fits(cells1, cells1[p].ty, i, cells1[p].slots[i])
      ensures cells1[p].slots[i].Ref? ==> IsLive(cells1, cells1[p].slots[i].o)
    {
      if p < |cells| {
        assert Fits(cells, cells[p].ty, i, cells[p].slots[i]);
      }
    }
  }

  lemma {:induction false} TotalAppend(cells: seq<Cell>, c: Cell, o: Address, p: Address)
    requires p <= |cells| && forall i :: 0 <= i < |c.slots| ==> !c.slots[i].Ref?
    ensures Total(cells + [c], {}, o, p) == Total(cells, {}, o, p)
    decreases |cells| - p
  {
    NoReferences(c.slots, |cells|, {}, o, 0);
    if p < |cells| {
      TotalAppend(cells, c, o, p + 1);
    }
  }

  // Nothing refers to an address that is not in use yet.
  lemma {:induction false} NobodyRefers(cells: seq<Cell>, ext: multiset<Address>, o: Address, p: Address)
    requires Closed(cells, ext, {}) && o >= |cells|
    ensures Total(cells, {}, o, p) == 0 && ext[o] == 0
    decreases |cells| - p
  {
    if p < |cells| {
      if cells[p].live {
        NoneToNew(cells, ext, o, p, 0);
      }
      NobodyRefers(cells, ext, o, p + 1);
    }
    assert o in ext ==> IsLive(cells, o);
  }

  lemma {:induction false} NoneToNew(cells: seq<Cell>, ext: multiset<Address>, o: Address, p: Address, k: nat)
    requires Closed(cells, ext, {}) && o >= |cells| && IsLive(cells, p)
    ensures CountSlots(cells[p].slots, p, {}, o, k) == 0
    decreases |cells[p].slots| - k
  {
    if k < |cells[p].slots| {
      assert Fits(cells, cells[p].ty, k, cells[p].slots[k]);
      NoneToNew(cells, ext, o, p, k + 1);
    }
  }

  // What becomes of a slot of a value that is freed: references are given up and plain fields of structures reset.
  function Reset(t: Ty, i: nat, s: Slot): Slot {
    match s
    case Ref(_) => Null
    case Null => Null
    case Value(v) => Value(if t.Struct? && i < |t.fields| && t.fields[i].Plain? then t.fields[i].zero else v)
  }

  // The first i slots of a value that is freed have been dealt with.
  ghost predicate ResetUpTo(t: Ty, was: seq<Slot>, now: seq<Slot>, i: nat) {
    && i <= |was| == |now|
    && (forall k :: 0 <= k < i ==> now[k] == Reset(t, k, was[k]))
    && (forall k :: i <= k < |now| ==> now[k] == was[k])
  }

  lemma NoneReset(t: Ty, was: seq<Slot>)
    ensures ResetUpTo(t, was, was, 0)
  {
  }

  lemma ResetStep(t: Ty, was: seq<Slot>, now: seq<Slot>, i: nat)
    requires ResetUpTo(t, was, now, i) && i < |now|
    ensures now[i] == was[i]
    ensures ResetUpTo(t, was, now[i := Reset(t, i, now[i])], i + 1)
  {
    hide Reset;
  }

  lemma ResetRefs(t: Ty, was: seq<Slot>, now: seq<Slot>)
    requires ResetUpTo(t, was, now, |now|)
    ensures |now| == |was| && forall k :: 0 <= k < |now| ==> now[k] == Reset(t, k, was[k]) && !now[k].Ref?
  {
  }

  class Heap {
    var cells: seq<Cell>
    // The references held outside of values.
    ghost var ext: multiset<Address>

    // Every live value is counted exactly, and no reference dangles.
    ghost predicate Valid()
      reads this
    {
      Sound(cells, ext, {})
    }

    constructor ()
      ensures Valid() && cells == [] && ext == multiset{}
    {
      cells, ext := [], multiset{};
    }

    // Gives up one reference to o, and frees what is not referred to any more.
    method Decref(o: Address, ghost rel: set<Place>)
      requires OffByOne(cells, ext, rel, o) && Above(cells, rel, o)
      modifies this`cells
      ensures Sound(cells, ext, rel) && Steady(old(cells), cells, o)
      ensures IsLive(cells, o) <==> old(cells[o].nref) > 1
      ensures IsLive(cells, o) ==> cells[o] == old(cells[o].(nref := cells[o].nref - 1))
      decreases Rank(cells[o].ty), 2
    {
      hide Sound, OffByOne, Total, Fits;
      StartsLive(cells, ext, rel, o);
      TakenDown(cells, ext, rel, o);
      cells := cells[o := cells[o].(nref := cells[o].nref - 1)];
      if cells[o].nref <= 0 {
        Fini(o, rel);
        Freed(cells, ext, rel, o);
        cells := cells[o := cells[o].(live := false)];
      }
    }

    // Gives up the references in the slots of o, in order; plain fields of a structure are reset.
    method Fini(o: Address, ghost rel: set<Place>)
      requires Sound(cells, ext, rel) && Above(cells, rel, o) && IsLive(cells, o) && cells[o].nref == 0
      modifies this`cells
      ensures Sound(cells, ext, rel) && Steady(old(cells), cells, o)
      ensures IsLive(cells, o) && cells[o].nref == 0
      ensures forall i :: 0 <= i < |cells[o].slots| ==> !cells[o].slots[i].Ref?
      ensures |cells[o].slots| == old(|cells[o].slots|) && cells[o].ty == old(cells[o].ty)
      ensures forall i :: 0 <= i < |cells[o].slots| ==>
                            cells[o].slots[i] == Reset(cells[o].ty, i, old(cells[o].slots[i]))
      decreases Rank(cells[o].ty), 1
    {
      hide Sound, OffByOne, Total, Fits, SlotTy, Rank, ResetUpTo, Reset;
      var i := 0;
      ghost var t, was := cells[o].ty, cells[o].slots;
      NoneReset(t, was);
      while i < |cells[o].slots|
        invariant Steady(old(cells), cells, o) && IsLive(cells, o) && cells[o].nref == 0
        invariant i <= |cells[o].slots| && cells[o].ty == t
        invariant Sound(cells, ext, rel) && Above(cells, rel, o)
        invariant ResetUpTo(t, was, cells[o].slots, i)
        decreases |cells[o].slots| - i
      {
        ResetStep(t, was, cells[o].slots, i);
        FiniSlot(o, i, rel);
        i := i + 1;
      }
      ResetRefs(t, was, cells[o].slots);
    }

    // One slot of a value that is freed.
    method FiniSlot(o: Address, i: nat, ghost rel: set<Place>)
      requires Sound(cells, ext, rel) && Above(cells, rel, o) && IsLive(cells, o) && cells[o].nref == 0
      requires i < |cells[o].slots|
      modifies this`cells
      ensures Sound(cells, ext, rel) && Steady(old(cells), cells, o) && IsLive(cells, o)
      ensures cells[o] == old(cells[o].(slots := cells[o].slots[i := Reset(cells[o].ty, i, cells[o].slots[i])]))
      decreases Rank(cells[o].ty), 0
    {
      hide Sound, OffByOne, Total, Fits, SlotTy, Rank;
      SlotFits(cells, ext, rel, o, i);
      match cells[o].slots[i] {
        case Ref(q) =>
          Release(cells, ext, rel, o, i);
          DecrefSlot(o, i, q, rel);
        case Value(_) =>
          if cells[o].ty.Struct? && i < |cells[o].ty.fields| && cells[o].ty.fields[i].Plain? {
            var s := Value(cells[o].ty.fields[i].zero);
            PlainFits(cells, cells[o].ty, i, s);
            Cleared(cells, ext, rel, o, i, s);
            cells := cells[o := cells[o].(slots := cells[o].slots[i := s])];
          }
        case Null =>
      }
    }

    // Gives up the reference in a slot and empties the slot.
    method DecrefSlot(p: Address, i: nat, q: Address, ghost rel: set<Place>)
      requires IsLive(cells, p) && i < |cells[p].slots| && cells[p].slots[i] == Ref(q)
      requires OffByOne(cells, ext, rel + {(p, i)}, q) && Above(cells, rel, p) && (p, i) !in rel
      requires Rank(cells[q].ty) < Rank(cells[p].ty)
      modifies this`cells
      ensures Sound(cells, ext, rel) && Steady(old(cells), cells, p)
      ensures IsLive(cells, p) && cells[p] == old(cells[p].(slots := cells[p].slots[i := Null]))
      ensures IsLive(cells, q) <==> old(cells[q].nref) > 1
      ensures IsLive(cells, q) ==> cells[q].nref == old(cells[q].nref) - 1
      ensures Beside(old(cells), cells, p, q)
      decreases Rank(cells[q].ty), 3
    {
      hide Sound, OffByOne, Total, SlotTy, Rank;
      StartsLive(cells, ext, rel + {(p, i)}, q);
      Decref(q, rel + {(p, i)});
      SlotFits(cells, ext, rel + {(p, i)}, p, i);
      Cleared(cells, ext, rel, p, i, Null);
      cells := cells[p := cells[p].(slots := cells[p].slots[i := Null])];
    }

    // ---------- operations ----------

    // A new value, referred to by nobody, with empty slots.
    method New(ty: Ty, slots: seq<Slot>) returns (o: Address)
      requires Valid() && forall i :: 0 <= i < |slots| ==> !slots[i].Ref? && Fits(cells, ty, i, slots[i])
      modifies this`cells
      ensures Valid() && o == old(|cells|) && cells == old(cells) + [Cell(true, ty, 0, slots)]
    {
      o := |cells|;
      Allocated(cells, ext, Cell(true, ty, 0, slots));
      cells := cells + [Cell(true, ty, 0, slots)];
    }

    // Takes a reference from outside.
    method Hold(o: Address)
      requires Valid() && IsLive(cells, o)
      modifies this
      ensures Valid() && ext == old(ext) + multiset{o}
      ensures cells == old(cells)[o := old(cells[o]).(nref := old(cells[o].nref) + 1)]
    {
      hide Sound;
      Held(cells, ext, o);
      cells := cells[o := cells[o].(nref := cells[o].nref + 1)];
      ext := ext + multiset{o};
    }

    // Gives up a reference from outside.
    method Drop(o: Address)
      requires Valid() && o in ext
      modifies this
      ensures Valid() && ext == old(ext) - multiset{o} && Steady(old(cells), cells, o)
      ensures IsLive(cells, o) <==> old(cells[o].nref) > 1
    {
      hide Sound, OffByOne, Total;
      StartsHeld(cells, ext, o);
      LetGo(cells, ext, o);
      ext := ext - multiset{o};
      Decref(o, {});
    }

    // Empties a slot.
    method DelItem(p: Address, i: nat)
      requires Valid() && IsLive(cells, p) && i < |cells[p].slots| && !cells[p].slots[i].Value?
      modifies this`cells
      ensures Valid() && Steady(old(cells), cells, p)
      ensures IsLive(cells, p) && cells[p] == old(cells[p].(slots := cells[p].slots[i := Null]))
      ensures old(cells[p].slots[i]).Null? ==> cells == old(cells)
      ensures old(cells[p].slots[i]).Ref? ==>
                var q := old(cells[p].slots[i]).o;
                && old(IsLive(cells, q)) && Beside(old(cells), cells, p, q)
                && (IsLive(cells, q) <==> old(cells[q].nref) > 1)
                && (IsLive(cells, q) ==> cells[q].nref == old(cells[q].nref) - 1)
    {
      hide Sound, Total, Fits, Rank, SlotTy, OffByOne;
      SlotFits(cells, ext, {}, p, i);
      if cells[p].slots[i].Ref? {
        Release(cells, ext, {}, p, i);
        DecrefSlot(p, i, cells[p].slots[i].o, {});
      } else {
        assert cells[p].slots == cells[p].slots[i := Null];
      }
    }

    // Reads a slot. A default is stored in an empty slot without being counted.
    method GetItem(p: Address, i: nat, dflt: Slot) returns (s: Slot)
      requires Valid() && IsLive(cells, p) && i < |cells[p].slots| && !cells[p].slots[i].Value?
      requires Fits(cells, cells[p].ty, i, dflt) && !dflt.Value?
      modifies this`cells
      ensures s == if old(cells[p].slots[i]).Null? then dflt else old(cells[p].slots[i])
      ensures cells == old(cells)[p := old(cells[p].(slots := cells[p].slots[i := s]))]
      ensures Valid() <==> old(cells[p].slots[i]).Ref? || dflt.Null?
    {
      hide Sound, Total, Fits;
      if cells[p].slots[i].Null? {
        if dflt.Ref? {
          Uncounted(cells, ext, p, i, dflt.o);
        }
        cells := cells[p := cells[p].(slots := cells[p].slots[i := dflt])];
        if dflt.Null? {
          assert cells[p].slots == old(cells[p].slots);
          assert cells == old(cells);
        }
      }
      s := cells[p].slots[i];
      Same(old(cells), cells, p, i, s);
    }

    // Stores a value in a slot: the reference in the slot is given up first. That frees the value itself if the slot
    // held the only reference to it, and then the slot refers to a freed value; in every other case all is right.
    method SetItem(p: Address, i: nat, o: Address)
      requires Valid() && IsLive(cells, p) && i < |cells[p].slots| && !cells[p].slots[i].Value?
      requires IsLive(cells, o) && Fits(cells, cells[p].ty, i, Ref(o))
      modifies this`cells
      ensures var lost := old(cells[p].slots[i] == Ref(o) && cells[o].nref == 1);
              && (Valid() <==> !lost) && (IsLive(cells, o) <==> !lost)
      ensures |cells| == old(|cells|) && IsLive(cells, p) &&
              cells[p] == old(cells[p].(slots := cells[p].slots[i := Ref(o)]))
      ensures forall x :: 0 <= x < |cells| ==> cells[x].ty == old(cells[x].ty)
      ensures forall x: nat :: IsLive(cells, x) && x != p ==>
                                 old(IsLive(cells, x)) && cells[x].slots == old(cells[x].slots)
      ensures forall x: nat :: IsLive(cells, x) && cells[x].nref == 0 ==> old(cells[x].nref) == 0
      ensures IsLive(cells, o) ==>
                cells[o].nref == old(cells[o].nref) + (if old(cells[p].slots[i]) == Ref(o) then 0 else 1)
    {
      hide Sound, Total, Rank, SlotTy, Fits;
      FitsBelow(cells, p, i, o);
      if cells[p].slots[i].Ref? {
        CountPositive(cells, ext, p, i);
      }
      SameRank(cells, ext, p, i, o);
      DelItem(p, i);
      StillFits(old(cells), cells, p, i, o);
      assert old(cells[p].slots[i]) != Ref(o) ==> cells[o] == old(cells[o]);
      assert old(cells[p].slots[i]) == Ref(o) ==> (IsLive(cells, o) <==> old(cells[o].nref) > 1);
      Store(p, i, o);
    }

    // Makes an empty slot refer to a value and counts the reference, even if the value has been freed.
    method Store(p: Address, i: nat, o: Address)
      requires Valid() && IsLive(cells, p) && i < |cells[p].slots| && cells[p].slots[i] == Null
      requires o < |cells| && Fits(cells, cells[p].ty, i, Ref(o)) && o != p
      modifies this`cells
      ensures cells == old(cells)[p := old(cells[p].(slots := cells[p].slots[i := Ref(o)]))]
                       [o := old(cells[o].(nref := cells[o].nref + 1))]
      ensures Valid() <==> old(IsLive(cells, o))
      ensures old(IsLive(cells, o)) ==> old(cells[o].nref) >= 0
    {
      hide Sound, Total, Fits;
      if cells[o].live {
        Stored(cells, ext, p, i, o);
        NotNegative(cells, ext, o);
      }
      cells := cells[p := cells[p].(slots := cells[p].slots[i := Ref(o)])];
      cells := cells[o := cells[o].(nref := cells[o].nref + 1)];
      if !cells[o].live {
        Dangles(cells, ext, p, i);
      }
    }
  }

  // A structure and a value that is stored in it twice: the second time it is freed, and the slot dangles.
  method StoreOverItself(ty: Ty) returns (h: Heap, p: Address, o: Address)
    requires !ty.Plain?
    ensures fresh(h) && !h.Valid()
    ensures IsLive(h.cells, p) && h.cells[p].slots == [Ref(o)] && !IsLive(h.cells, o)
  {
    hide Sound;
    h := new Heap();
    p := h.New(Struct([ty]), [Null]);
    o := h.New(ty, []);
    h.SetItem(p, 0, o);
    h.SetItem(p, 0, o);
  }

  // A structure and a value that is given as the default for its empty slot: it is stored there without being counted.
  method GetDefault(ty: Ty) returns (h: Heap, p: Address, o: Address)
    requires !ty.Plain?
    ensures fresh(h) && !h.Valid()
    ensures IsLive(h.cells, p) && h.cells[p].slots == [Ref(o)] && IsLive(h.cells, o) && h.cells[o].nref == 0
  {
    hide Sound;
    h := new Heap();
    p := h.New(Struct([ty]), [Null]);
    o := h.New(ty, []);
    var s := h.GetItem(p, 0, Ref(o));
  }

  lemma Same(before: seq<Cell>, after: seq<Cell>, p: Address, i: nat, s: Slot)
    requires p < |before| && i < |before[p].slots|
    requires after == before || after == before[p := before[p].(slots := before[p].slots[i := s])]
    requires after == before ==> before[p].slots[i] == s
    ensures after == before[p := before[p].(slots := before[p].slots[i := s])]
  {
    if after == before {
      assert before[p].slots[i := s] == before[p].slots;
    }
  }

  // A reference that is stored without being counted makes a count wrong, or dangles.
  lemma Uncounted(cells: seq<Cell>, ext: multiset<Address>, p: Address, i: nat, o: Address)
    requires Sound(cells, ext, {}) && IsLive(cells, p) && i < |cells[p].slots| && cells[p].slots[i] == Null
    requires Fits(cells, cells[p].ty, i, Ref(o))
    ensures !Sound(cells[p := cells[p].(slots := cells[p].slots[i := Ref(o)])], ext, {})
  {
    hide Total, CountSlots;
    FitsBelow(cells, p, i, o);
    var c := cells[p].(slots := cells[p].slots[i := Ref(o)]);
    var cells1 := cells[p := c];
    if IsLive(cells, o) {
      assert Counted(cells, ext, {}, o, 0);
      CountReplace(cells[p].slots, p, {}, o, i, Ref(o), 0);
      TotalReplace(cells, {}, o, p, c, 0);
      assert !Counted(cells1, ext, {}, o, 0);
      assert IsLive(cells1, o);
    } else {
      Dangles(cells1, ext, p, i);
    }
  }

  lemma NotNegative(cells: seq<Cell>, ext: multiset<Address>, o: Address)
    requires Sound(cells, ext, {}) && IsLive(cells, o)
    ensures cells[o].nref >= 0
  {
    assert Counted(cells, ext, {}, o, 0);
  }

  // A value that is referred to is counted.
  lemma CountPositive(cells: seq<Cell>, ext: multiset<Address>, p: Address, i: nat)
    requires Sound(cells, ext, {}) && IsLive(cells, p) && i < |cells[p].slots| && cells[p].slots[i].Ref?
    ensures IsLive(cells, cells[p].slots[i].o) && cells[cells[p].slots[i].o].nref > 0
  {
    hide Total, Fits;
    var q := cells[p].slots[i].o;
    assert Counted(cells, ext, {}, q, 0);
    PlaceCounts(cells, {}, q, p, i);
  }

  // What a slot refers to and what can be stored in it have the same type.
  lemma SameRank(cells: seq<Cell>, ext: multiset<Address>, p: Address, i: nat, o: Address)
    requires Sound(cells, ext, {}) && IsLive(cells, p) && i < |cells[p].slots| && Fits(cells, cells[p].ty, i, Ref(o))
    ensures cells[p].slots[i].Ref? ==>
              cells[p].slots[i].o < |cells| && cells[cells[p].slots[i].o].ty == cells[o].ty
  {
    assert Fits(cells, cells[p].ty, i, cells[p].slots[i]);
  }

  lemma StillFits(before: seq<Cell>, after: seq<Cell>, p: Address, i: nat, o: Address)
    requires p < |before| && Fits(before, before[p].ty, i, Ref(o)) && Steady(before, after, p)
    ensures Fits(after, after[p].ty, i, Ref(o))
  {
  }

  lemma StartsHeld(cells: seq<Cell>, ext: multiset<Address>, o: Address)
    requires Sound(cells, ext, {}) && o in ext
    ensures IsLive(cells, o)
  {
  }

  lemma StartsLive(cells: seq<Cell>, ext: multiset<Address>, rel: set<Place>, o: Address)
    requires OffByOne(cells, ext, rel, o)
    ensures IsLive(cells, o)
  {
  }

  lemma SlotFits(cells: seq<Cell>, ext: multiset<Address>, rel: set<Place>, p: Address, i: nat)
    requires Sound(cells, ext, rel) && IsLive(cells, p) && i < |cells[p].slots|
    ensures Fits(cells, cells[p].ty, i, cells[p].slots[i])
    ensures cells[p].slots[i].Ref? ==>
              var q := cells[p].slots[i].o;
              q < |cells| && Rank(cells[q].ty) < Rank(cells[p].ty) && Fits(cells, cells[p].ty, i, Null)
    ensures cells[p].slots[i].Ref? && (p, i) !in rel ==> IsLive(cells, cells[p].slots[i].o)
  {
    if cells[p].slots[i].Ref? {
      SlotRank(cells[p].ty, i);
    }
  }

  lemma PlainFits(cells: seq<Cell>, t: Ty, i: nat, s: Slot)
    requires t.Struct? && i < |t.fields| && t.fields[i].Plain? && s.Value?
    ensures Fits(cells, t, i, s)
  {
  }

  // A value is not part of what it is stored in.
  lemma FitsBelow(cells: seq<Cell>, p: Address, i: nat, o: Address)
    requires p < |cells| && Fits(cells, cells[p].ty, i, Ref(o))
    ensures o != p && Rank(cells[o].ty) < Rank(cells[p].ty)
  {
    SlotRank(cells[p].ty, i);
  }

  lemma Dangles(cells: seq<Cell>, ext: multiset<Address>, p: Address, i: nat)
    requires IsLive(cells, p) && i < |cells[p].slots| && cells[p].slots[i].Ref? && !IsLive(cells, cells[p].slots[i].o)
    ensures !Sound(cells, ext, {})
  {
  }

  // ---------- nothing leaks ----------

  function DeepestRank(cells: seq<Cell>): (r: nat)
    ensures forall p :: 0 <= p < |cells| ==> Rank(cells[p].ty) <= r
  {
    if cells == [] then 0
    else
      var a, b := Rank(cells[0].ty), DeepestRank(cells[1..]);
      if a > b then a else b
  }

  lemma {:induction false} SlotOf(slots: seq<Slot>, p: Address, o: Address, k: nat) returns (i: nat)
    requires CountSlots(slots, p, {}, o, k) > 0
    ensures i < |slots| && slots[i] == Ref(o)
    decreases |slots| - k
  {
    if slots[k] == Ref(o) {
      i := k;
    } else {
      i := SlotOf(slots, p, o, k + 1);
    }
  }

  lemma {:induction false} HolderOf(cells: seq<Cell>, o: Address, from: Address) returns (p: Address, i: nat)
    requires Total(cells, {}, o, from) > 0
    ensures IsLive(cells, p) && i < |cells[p].slots| && cells[p].slots[i] == Ref(o)
    decreases |cells| - from
  {
    if CountCell(cells[from], from, {}, o) > 0 {
      p := from;
      i := SlotOf(cells[p].slots, p, o, 0);
    } else {
      p, i := HolderOf(cells, o, from + 1);
    }
  }

  lemma {:induction false} NotLive(cells: seq<Cell>, o: Address)
    requires Sound(cells, multiset{}, {}) && forall x: nat :: IsLive(cells, x) ==> cells[x].nref != 0
    ensures !IsLive(cells, o)
    decreases if o < |cells| then DeepestRank(cells) - Rank(cells[o].ty) else 0
  {
    hide DeepestRank, Rank, SlotTy;
    if IsLive(cells, o) {
      assert Counted(cells, multiset{}, {}, o, 0);
      var p, i := HolderOf(cells, o, 0);
      SlotFits(cells, multiset{}, {}, p, i);
      NotLive(cells, p);
    }
  }

  // Once nothing is held from outside, and no value was left that nobody ever referred to, all values are gone:
  // because types nest strictly, there are no cycles of references.
  lemma NothingLeaks(cells: seq<Cell>)
    requires Sound(cells, multiset{}, {})
    ensures (forall x: nat :: IsLive(cells, x) ==> cells[x].nref != 0) <==> forall x: nat :: !IsLive(cells, x)
  {
    if forall x: nat :: IsLive(cells, x) ==> cells[x].nref != 0 {
      forall x: nat ensures !IsLive(cells, x) {
        NotLive(cells, x);
      }
    }
  }
}
