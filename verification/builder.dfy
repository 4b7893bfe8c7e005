/**
 Growing a function block by block: what each builder call does to the function, as functions on values,
 and the relations between an earlier and a later stage of the same function.
 */
module Building {
  import opened Basics
  import opened IR

  predicate Open(s: Fn, b: nat) {
    b < |s.blocks| && s.blocks[b].term.None?
  }

  // The builder inserts into an unfinished block.
  predicate Ready(s: Fn) {
    Open(s, s.cur)
  }

  // Block b is still empty and not the one in work.
  predicate Vacant(s: Fn, b: nat) {
    b < |s.blocks| && s.blocks[b] == Block([], None) && b != s.cur
  }

  // Block b holds nothing but a phi so far.
  predicate PhiHead(s: Fn, b: nat) {
    Open(s, b) && |s.blocks[b].instrs| == 1 && s.blocks[b].instrs[0].Phi?
  }

  function Incoming(s: Fn, b: nat): seq<(Operand, nat)>
    requires PhiHead(s, b)
  {
    s.blocks[b].instrs[0].incoming
  }

  // The body lists every block exactly once, and block 0 first.
  ghost predicate Laid(s: Fn) {
    && s.order != [] && s.order[0] == 0 && s.blocks != []
    && forall b :: multiset(s.order)[b] == if 0 <= b < |s.blocks| then 1 else 0
  }

  // ---------- builder calls ----------

  function Append(s: Fn, i: Instr): (Fn, Operand)
    requires Ready(s)
  {
    var bl := s.blocks[s.cur];
    (s.(blocks := s.blocks[s.cur := bl.(instrs := bl.instrs + [i])]), Reg(s.cur, |bl.instrs|))
  }

  function Effect(s: Fn, i: Instr): Fn
    requires Ready(s)
  {
    Append(s, i).0
  }

  predicate AllConst(i: Instr)
    requires IsPure(i)
  {
    match i
    case Bin(_, a, b) => a.Const? && b.Const?
    case ICmp(_, a, b) => a.Const? && b.Const?
    case Select(c, a, b) => c.Const? && a.Const? && b.Const?
    case ZExt(a) => a.Const?
    case Not(a) => a.Const?
  }

  // The builder folds an instruction whose operands are all constants and whose value is defined.
  function Build(s: Fn, i: Instr): (r: (Fn, Operand))
    requires Ready(s) && IsPure(i)
    ensures Ready(r.0) && Grows(s, r.0) && r.0.cur == s.cur && |r.0.blocks| == |s.blocks|
  {
    if AllConst(i) && PureValue(i, map[]).Some? then (s, Const(PureValue(i, map[]).value)) else Append(s, i)
  }

  // Ends the current block and moves on to another one.
  function Seal(s: Fn, t: Terminator, next: nat): Fn
    requires Ready(s)
  {
    s.(blocks := s.blocks[s.cur := s.blocks[s.cur].(term := Some(t))], cur := next)
  }

  // Ends the current block and moves on to the open block next of the construct under way.
  function Turn(n: nat, s: Fn, t: Terminator, next: nat): (r: Fn)
    requires Ready(s) && n <= next && Open(s, next) && next != s.cur
    ensures Ready(r) && GrowsFrom(n, s, r) && Later(s, r) && r.cur == next && r.order == s.order
    ensures |r.blocks| == |s.blocks| && forall b :: 0 <= b < |s.blocks| && b != s.cur ==> r.blocks[b] == s.blocks[b]
  {
    Seal(s, t, next)
  }

  function InsertAfter(order: seq<nat>, b: nat, x: nat): seq<nat> {
    if order == [] then [x]
    else if order[0] == b then [order[0]] + ([x] + order[1..])
    else [order[0]] + InsertAfter(order[1..], b, x)
  }

  function InsertBefore(order: seq<nat>, b: nat, x: nat): seq<nat> {
    if order == [] then [x]
    else if order[0] == b then [x] + order
    else [order[0]] + InsertBefore(order[1..], b, x)
  }

  lemma {:induction false} InsertAfterAdds(order: seq<nat>, b: nat, x: nat)
    ensures multiset(InsertAfter(order, b, x)) == multiset(order) + multiset{x}
    ensures order != [] ==> InsertAfter(order, b, x)[0] == order[0]
  {
    if order != [] {
      assert order == [order[0]] + order[1..];
      if order[0] != b {
        InsertAfterAdds(order[1..], b, x);
      }
    }
  }

  lemma {:induction false} InsertBeforeAdds(order: seq<nat>, b: nat, x: nat)
    ensures multiset(InsertBefore(order, b, x)) == multiset(order) + multiset{x}
    ensures order != [] && order[0] != b ==> InsertBefore(order, b, x)[0] == order[0]
  {
    if order != [] {
      assert order == [order[0]] + order[1..];
      if order[0] != b {
        InsertBeforeAdds(order[1..], b, x);
      }
    }
  }

  // A new empty block behind the current one; its number is the number of blocks so far.
  function NewAfter(s: Fn): (r: Fn)
    ensures Laid(s) ==> Laid(r)
  {
    InsertAfterAdds(s.order, s.cur, |s.blocks|);
    s.(blocks := s.blocks + [Block([], None)], order := InsertAfter(s.order, s.cur, |s.blocks|))
  }

  function NewBefore(s: Fn, b: nat): (r: Fn)
    ensures Laid(s) && b != 0 ==> Laid(r)
  {
    InsertBeforeAdds(s.order, b, |s.blocks|);
    s.(blocks := s.blocks + [Block([], None)], order := InsertBefore(s.order, b, |s.blocks|))
  }

  // An empty phi at the head of the empty block b.
  function OpenPhi(s: Fn, b: nat): Fn
    requires Open(s, b)
  {
    s.(blocks := s.blocks[b := s.blocks[b].(instrs := s.blocks[b].instrs + [Phi([])])])
  }

  function AddIncoming(s: Fn, b: nat, v: Operand, from: nat): Fn
    requires PhiHead(s, b)
  {
    var bl := s.blocks[b];
    s.(blocks := s.blocks[b := bl.(instrs := bl.instrs[0 := Phi(bl.instrs[0].incoming + [(v, from)])])])
  }

  // ---------- stages ----------

  // From s to s', with the blocks numbered n and above private to the construct being compiled: of the
  // other blocks only the current one changes, and it only grows.
  ghost predicate GrowsFrom(n: nat, s: Fn, s': Fn) {
    && Ready(s) && Ready(s')
    && n <= |s.blocks| <= |s'.blocks|
    && (forall b :: 0 <= b < n && b != s.cur ==> s'.blocks[b] == s.blocks[b])
    && (s.cur < n ==>
          && s.blocks[s.cur].instrs <= s'.blocks[s.cur].instrs
          && (s'.cur != s.cur ==> s'.cur >= n && s'.blocks[s.cur].term.Some?))
    && (s.cur >= n ==> s'.cur >= n)
    && (Laid(s) ==> Laid(s'))
  }

  ghost predicate Grows(s: Fn, s': Fn) {
    GrowsFrom(|s.blocks|, s, s')
  }

  lemma GrowsTrans(n: nat, a: Fn, b: Fn, c: Fn)
    requires GrowsFrom(n, a, b) && GrowsFrom(n, b, c)
    ensures GrowsFrom(n, a, c)
  {
  }

  lemma GrowsWeaken(n: nat, a: Fn, b: Fn)
    requires Grows(a, b) && n <= |a.blocks|
    ensures GrowsFrom(n, a, b)
  {
  }

  lemma GrowsChainFrom(n: nat, a: Fn, b: Fn, c: Fn)
    requires GrowsFrom(n, a, b) && Grows(b, c)
    ensures GrowsFrom(n, a, c)
  {
    GrowsWeaken(n, b, c);
    GrowsTrans(n, a, b, c);
  }

  lemma GrowsChain(a: Fn, b: Fn, c: Fn)
    requires Grows(a, b) && Grows(b, c)
    ensures Grows(a, c)
  {
    GrowsWeaken(|a.blocks|, b, c);
    GrowsTrans(|a.blocks|, a, b, c);
  }

  // A block that is still waiting is left alone.
  lemma VacantKept(s: Fn, s': Fn, b: nat)
    requires Grows(s, s') && Vacant(s, b)
    ensures Vacant(s', b)
  {
  }

  // What every later stage keeps of an earlier one: finished blocks, and the beginning of the block in work.
  ghost predicate Later(s: Fn, s': Fn) {
    && Ready(s)
    && |s.blocks| <= |s'.blocks|
    && (forall b :: 0 <= b < |s.blocks| && s.blocks[b].term.Some? ==> s'.blocks[b] == s.blocks[b])
    && s.blocks[s.cur].instrs <= s'.blocks[s.cur].instrs
    && (s'.cur == s.cur || s'.blocks[s.cur].term.Some?)
  }

  // The finished function f was grown from stage s.
  ghost predicate PartOf(s: Fn, f: Fn) {
    && Ready(s)
    && |s.blocks| <= |f.blocks|
    && (forall b :: 0 <= b < |s.blocks| && s.blocks[b].term.Some? ==> f.blocks[b] == s.blocks[b])
    && s.blocks[s.cur].instrs <= f.blocks[s.cur].instrs
  }

  lemma LaterPartOf(s: Fn, s': Fn, f: Fn)
    requires Later(s, s') && PartOf(s', f)
    ensures PartOf(s, f)
  {
  }

  lemma LaterTrans(a: Fn, b: Fn, c: Fn)
    requires Later(a, b) && Later(b, c)
    ensures Later(a, c)
  {
  }

  lemma GrowsLater(a: Fn, b: Fn)
    requires Grows(a, b)
    ensures Later(a, b)
  {
  }

  // From s to s' while the phi of the open block end collects its incoming values.
  ghost predicate Collects(end: nat, s: Fn, s': Fn) {
    GrowsFrom(end, s, s') && Later(s, s') && PhiGrows(end, s, s') && s'.cur != end
  }

  ghost predicate PhiGrows(end: nat, s: Fn, s': Fn) {
    PhiHead(s, end) && PhiHead(s', end) && Incoming(s, end) <= Incoming(s', end)
  }

  // From s to s', where the phi is complete and the builder has moved to it.
  ghost predicate Joins(end: nat, s: Fn, s': Fn) {
    GrowsFrom(end, s, s') && Later(s, s') && PhiGrows(end, s, s') && s'.cur == end
  }

  lemma CollectsJoins(end: nat, a: Fn, b: Fn, c: Fn)
    requires Collects(end, a, b) && Joins(end, b, c)
    ensures Joins(end, a, c)
  {
    GrowsTrans(end, a, b, c);
    LaterTrans(a, b, c);
  }

  predicate Collecting(s: Fn, end: nat) {
    Ready(s) && PhiHead(s, end) && s.cur != end && end != 0
  }

  lemma CollectsTrans(end: nat, a: Fn, b: Fn, c: Fn)
    requires Collects(end, a, b) && Collects(end, b, c)
    ensures Collects(end, a, c)
  {
    GrowsTrans(end, a, b, c);
    LaterTrans(a, b, c);
  }

  lemma GrowsCollects(end: nat, a: Fn, b: Fn)
    requires Collecting(a, end) && Grows(a, b)
    ensures Collects(end, a, b)
  {
  }

  // Passes v from the current block to the phi of end.
  function Collect(s: Fn, end: nat, v: Operand): (r: Fn)
    requires Collecting(s, end)
    ensures Collecting(r, end) && Collects(end, s, r) && r.cur == s.cur &&
            Incoming(r, end) == Incoming(s, end) + [(v, s.cur)]
  {
    AddIncoming(s, end, v, s.cur)
  }

  // The new block behind the current one, at which a phi will join.
  function OpenJoin(s: Fn): (r: Fn)
    requires Ready(s)
    ensures Ready(r) && Grows(s, r) && Collecting(r, |s.blocks|) && r.cur == s.cur && Incoming(r, |s.blocks|) == []
  {
    OpenPhi(NewAfter(s), |s.blocks|)
  }

  function CloseJoin(s: Fn, end: nat): (r: Fn)
    requires Collecting(s, end)
    ensures Ready(r) && Joins(end, s, r)
  {
    Turn(end, s, Br(end), end)
  }
}
