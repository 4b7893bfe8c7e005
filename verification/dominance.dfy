/**
 Registers are defined before they are used: along every path from the entry to a use lies the definition.
 */
module Dominance {
  import opened Basics
  import opened IR
  import opened Expressions
  import opened Building
  import opened CodeGen
  import opened Ssa

  // ---------- definitions and uses ----------

  // The instructions that have a value.
  predicate Defines(i: Instr) {
    !(i.CallInit? || i.Store? || i.StoreDone?)
  }

  // What an instruction reads when it runs; a phi reads at the end of the block it comes from.
  function Operands(i: Instr): seq<Operand> {
    match i
    case Bin(_, a, b) => [a, b]
    case ICmp(_, a, b) => [a, b]
    case Select(c, a, b) => [c, a, b]
    case ZExt(a) => [a]
    case Not(a) => [a]
    case Store(_, a) => [a]
    case _ => []
  }

  function TermOperands(t: Option<Terminator>): seq<Operand> {
    match t
    case Some(CondBr(c, _, _)) => [c]
    case Some(Ret(v)) => [v]
    case _ => []
  }

  predicate Exists(s: Fn, o: Operand) {
    o.Reg? ==>
      && o.block < |s.blocks| && o.idx < |s.blocks[o.block].instrs|
      && Defines(s.blocks[o.block].instrs[o.idx])
  }

  // From the entry along the branches.
  ghost predicate Path(s: Fn, path: seq<nat>) {
    path != [] && path[0] == Entry(s) && forall k :: 0 < k < |path| ==> Edge(s, path[k - 1], path[k])
  }

  // However control gets to instruction i of block b, it has run the definition of o before.
  ghost predicate DefinedAt(s: Fn, o: Operand, b: nat, i: nat) {
    o.Reg? ==>
      && Exists(s, o)
      && forall path :: Path(s, path) && path[|path| - 1] == b ==>
                          o.block in path[..|path| - 1] || (o.block == b && o.idx < i)
  }

  ghost predicate InstrDefined(s: Fn, b: nat, i: nat)
    requires b < |s.blocks| && i < |s.blocks[b].instrs|
  {
    var instr := s.blocks[b].instrs[i];
    && (forall o :: o in Operands(instr) ==> DefinedAt(s, o, b, i))
    && (instr.Phi? ==>
          forall k :: 0 <= k < |instr.incoming| ==>
                        var (v, from) := instr.incoming[k];
                        from < |s.blocks| && DefinedAt(s, v, from, |s.blocks[from].instrs|))
  }

  // Every register that is read has been defined.
  ghost predicate UsesDefined(s: Fn) {
    forall b :: 0 <= b < |s.blocks| ==>
                  && (forall i :: 0 <= i < |s.blocks[b].instrs| ==> InstrDefined(s, b, i))
                  && (forall o :: o in TermOperands(s.blocks[b].term) ==>
                                    DefinedAt(s, o, b, |s.blocks[b].instrs|))
  }

  // ---------- labels ----------

  // For every block, blocks that lie on every path to it, itself included.
  type Labels = seq<set<nat>>

  ghost predicate Usable(s: Fn, a: Labels, o: Operand, b: nat, i: nat)
    requires b < |a|
  {
    o.Reg? ==> Exists(s, o) && o.block in a[b] && (o.block == b ==> o.idx < i)
  }

  ghost predicate InstrUsable(s: Fn, a: Labels, b: nat, i: nat)
    requires b < |s.blocks| == |a| && i < |s.blocks[b].instrs|
  {
    var instr := s.blocks[b].instrs[i];
    && (forall o :: o in Operands(instr) ==> Usable(s, a, o, b, i))
    && (instr.Phi? ==>
          forall k :: 0 <= k < |instr.incoming| ==>
                        var (v, from) := instr.incoming[k];
                        from < |s.blocks| && Usable(s, a, v, from, |s.blocks[from].instrs|))
  }

  ghost predicate TermUsable(s: Fn, a: Labels, b: nat)
    requires b < |s.blocks| == |a|
  {
    forall o :: o in TermOperands(s.blocks[b].term) ==> Usable(s, a, o, b, |s.blocks[b].instrs|)
  }

  ghost predicate EdgesLabelled(s: Fn, a: Labels)
    requires |s.blocks| == |a|
  {
    forall p: nat, b: nat :: Edge(s, p, b) ==> b < |a| && a[b] <= a[p] + {b}
  }

  ghost predicate UsesLabelled(s: Fn, a: Labels)
    requires |s.blocks| == |a|
  {
    forall b :: 0 <= b < |s.blocks| ==>
                  TermUsable(s, a, b) && forall i :: 0 <= i < |s.blocks[b].instrs| ==> InstrUsable(s, a, b, i)
  }

  // The labels fit the branches, and what is read is labelled as defined before.
  ghost predicate Scoped(s: Fn, a: Labels) {
    && |s.blocks| == |a| && a != [] && a[0] == {0} && (forall b :: 0 <= b < |a| ==> b in a[b])
    && EdgesLabelled(s, a) && UsesLabelled(s, a)
  }

  // A path to a block goes through the blocks it is labelled with.
  lemma {:induction false} PathHolds(s: Fn, a: Labels, path: seq<nat>)
    requires Scoped(s, a) && Entry(s) == 0 && Path(s, path)
    ensures path[|path| - 1] < |a| && forall d :: d in a[path[|path| - 1]] ==> d in path
    decreases |path|
  {
    hide UsesLabelled;
    var last := |path| - 1;
    if last > 0 {
      var front := path[..last];
      forall k | 0 < k < |front| ensures Edge(s, front[k - 1], front[k]) {
        assert Edge(s, path[k - 1], path[k]);
      }
      PathHolds(s, a, front);
      assert Edge(s, path[last - 1], path[last]);
      assert path == front + [path[last]];
    }
  }

  lemma UsableDefined(s: Fn, a: Labels, o: Operand, b: nat, i: nat)
    requires Scoped(s, a) && Entry(s) == 0 && b < |a| && Usable(s, a, o, b, i)
    ensures DefinedAt(s, o, b, i)
  {
    hide Scoped, Edge;
    if o.Reg? {
      forall path | Path(s, path) && path[|path| - 1] == b
        ensures o.block in path[..|path| - 1] || (o.block == b && o.idx < i)
      {
        PathHolds(s, a, path);
        var front := path[..|path| - 1];
        assert path == front + [b];
        assert o.block in front + [b];
      }
    }
  }

  // Labels prove that every register is defined before it is read.
  lemma LabelsDefine(s: Fn, a: Labels)
    requires Scoped(s, a) && Entry(s) == 0
    ensures UsesDefined(s)
  {
    hide Usable, DefinedAt, EdgesLabelled, Operands, TermOperands;
    forall b | 0 <= b < |s.blocks|
      ensures forall i :: 0 <= i < |s.blocks[b].instrs| ==> InstrDefined(s, b, i)
      ensures forall o :: o in TermOperands(s.blocks[b].term) ==> DefinedAt(s, o, b, |s.blocks[b].instrs|)
    {
      forall o | o in TermOperands(s.blocks[b].term) ensures DefinedAt(s, o, b, |s.blocks[b].instrs|) {
        UsableDefined(s, a, o, b, |s.blocks[b].instrs|);
      }
      forall i | 0 <= i < |s.blocks[b].instrs| ensures InstrDefined(s, b, i) {
        InstrIsDefined(s, a, b, i);
      }
    }
  }

  lemma InstrIsDefined(s: Fn, a: Labels, b: nat, i: nat)
    requires Scoped(s, a) && Entry(s) == 0 && b < |s.blocks| && i < |s.blocks[b].instrs|
    ensures InstrDefined(s, b, i)
  {
    assert InstrUsable(s, a, b, i);
    hide Scoped, Usable, DefinedAt, Operands;
    var instr := s.blocks[b].instrs[i];
    forall o | o in Operands(instr) ensures DefinedAt(s, o, b, i) {
      UsableDefined(s, a, o, b, i);
    }
    if instr.Phi? {
      forall k | 0 <= k < |instr.incoming|
        ensures var (v, from) := instr.incoming[k];
                from < |s.blocks| && DefinedAt(s, v, from, |s.blocks[from].instrs|)
      {
        var (v, from) := instr.incoming[k];
        UsableDefined(s, a, v, from, |s.blocks[from].instrs|);
      }
    }
  }

  // ---------- builder calls keep labels ----------

  // Registers stay.
  ghost predicate RegistersStay(s: Fn, s': Fn) {
    && |s.blocks| <= |s'.blocks|
    && forall b :: 0 <= b < |s.blocks| ==>
                     && |s.blocks[b].instrs| <= |s'.blocks[b].instrs|
                     && forall i :: 0 <= i < |s.blocks[b].instrs| && Defines(s.blocks[b].instrs[i]) ==>
                                      Defines(s'.blocks[b].instrs[i])
  }

  // From s to s', labels are added.
  ghost predicate Kept(s: Fn, a: Labels, s': Fn, a': Labels) {
    Ready(s) && Ready(s') && Scoped(s, a) && Scoped(s', a') && RegistersStay(s, s') && a <= a'
  }

  // What lies on every path to the block in work still does.
  ghost predicate Carried(s: Fn, a: Labels, s': Fn, a': Labels) {
    Kept(s, a, s', a') && a[s.cur] <= a'[s'.cur]
  }

  lemma KeptTrans(s1: Fn, a1: Labels, s2: Fn, a2: Labels, s3: Fn, a3: Labels)
    requires Kept(s1, a1, s2, a2) && Kept(s2, a2, s3, a3)
    ensures Kept(s1, a1, s3, a3)
  {
    hide Scoped, Defines;
  }

  lemma CarriedTrans(s1: Fn, a1: Labels, s2: Fn, a2: Labels, s3: Fn, a3: Labels)
    requires Carried(s1, a1, s2, a2) && Carried(s2, a2, s3, a3)
    ensures Carried(s1, a1, s3, a3)
  {
    hide Scoped, Defines;
  }

  // The operand can be read by what is appended next.
  ghost predicate Now(s: Fn, a: Labels, o: Operand)
    requires Ready(s) && s.cur < |a|
  {
    o.Reg? ==> Exists(s, o) && o.block in a[s.cur]
  }

  ghost predicate Result(s: Fn, a: Labels, r: (Fn, Operand), a': Labels) {
    Carried(s, a, r.0, a') && Now(r.0, a', r.1)
  }

  lemma NowLater(s: Fn, a: Labels, s': Fn, a': Labels, o: Operand)
    requires Carried(s, a, s', a') && Now(s, a, o)
    ensures Now(s', a', o)
  {
    hide Scoped, Defines;
  }

  lemma UsableStays(s: Fn, a: Labels, s': Fn, a': Labels, o: Operand, b: nat, i: nat, j: nat)
    requires RegistersStay(s, s') && a <= a' && b < |a| && Usable(s, a, o, b, i) && i <= j
    ensures Usable(s', a', o, b, j)
  {
    hide Defines;
  }

  // Old instructions are as they were, in the same block or a later one of its stages.
  lemma InstrStays(s: Fn, a: Labels, s': Fn, a': Labels, b: nat, i: nat)
    requires RegistersStay(s, s') && a <= a' && |s.blocks| == |a| && |s'.blocks| == |a'|
    requires b < |s.blocks| && i < |s.blocks[b].instrs| && s'.blocks[b].instrs[i] == s.blocks[b].instrs[i]
    requires InstrUsable(s, a, b, i)
    ensures InstrUsable(s', a', b, i)
  {
    hide Usable, Operands;
    var instr := s.blocks[b].instrs[i];
    forall o | o in Operands(instr) ensures Usable(s', a', o, b, i) {
      UsableStays(s, a, s', a', o, b, i, i);
    }
    if instr.Phi? {
      forall k | 0 <= k < |instr.incoming|
        ensures var (v, from) := instr.incoming[k];
                from < |s'.blocks| && Usable(s', a', v, from, |s'.blocks[from].instrs|)
      {
        var (v, from) := instr.incoming[k];
        UsableStays(s, a, s', a', v, from, |s.blocks[from].instrs|, |s'.blocks[from].instrs|);
      }
    }
  }

  lemma TermStays(s: Fn, a: Labels, s': Fn, a': Labels, b: nat)
    requires RegistersStay(s, s') && a <= a' && |s.blocks| == |a| && |s'.blocks| == |a'|
    requires b < |s.blocks| && s'.blocks[b].term == s.blocks[b].term && TermUsable(s, a, b)
    ensures TermUsable(s', a', b)
  {
    hide Usable, TermOperands;
    forall o | o in TermOperands(s.blocks[b].term) ensures Usable(s', a', o, b, |s'.blocks[b].instrs|) {
      UsableStays(s, a, s', a', o, b, |s.blocks[b].instrs|, |s'.blocks[b].instrs|);
    }
  }

  // The operands of the instruction can be read now.
  ghost predicate Ready1(s: Fn, a: Labels, i: Instr)
    requires Ready(s) && s.cur < |a|
  {
    forall o :: o in Operands(i) ==> Now(s, a, o)
  }

  lemma AppendStays(s: Fn, i: Instr)
    requires Ready(s)
    ensures RegistersStay(s, Effect(s, i))
  {
  }

  lemma AppendScoped(s: Fn, a: Labels, i: Instr)
    requires Ready(s) && Scoped(s, a) && Ready1(s, a, i)
    requires i.Phi? ==> forall k :: 0 <= k < |i.incoming| ==>
                                      var (v, from) := i.incoming[k];
                                      from < |s.blocks| && Usable(s, a, v, from, |s.blocks[from].instrs|)
    ensures Carried(s, a, Effect(s, i), a)
    ensures Defines(i) ==> Result(s, a, Append(s, i), a)
  {
    hide EdgesLabelled, Defines;
    var s', n := Effect(s, i), |s.blocks[s.cur].instrs|;
    AppendStays(s, i);
    forall b | 0 <= b < |s'.blocks|
      ensures TermUsable(s', a, b)
      ensures forall j :: 0 <= j < |s'.blocks[b].instrs| ==> InstrUsable(s', a, b, j)
    {
      hide InstrUsable, TermUsable, Usable;
      TermStays(s, a, s', a, b);
      forall j | 0 <= j < |s'.blocks[b].instrs| ensures InstrUsable(s', a, b, j) {
        if j < |s.blocks[b].instrs| {
          InstrStays(s, a, s', a, b, j);
        } else {
          NewInstr(s, a, i);
        }
      }
    }
    AppendEdgesLabelled(s, a, i);
  }

  lemma AppendEdgesLabelled(s: Fn, a: Labels, i: Instr)
    requires Ready(s) && |s.blocks| == |a| && EdgesLabelled(s, a)
    ensures EdgesLabelled(Effect(s, i), a)
  {
    AppendEdges(s, i);
    hide Edge;
  }

  lemma NewInstr(s: Fn, a: Labels, i: Instr)
    requires Ready(s) && |s.blocks| == |a| && Ready1(s, a, i)
    requires i.Phi? ==> forall k :: 0 <= k < |i.incoming| ==>
                                      var (v, from) := i.incoming[k];
                                      from < |s.blocks| && Usable(s, a, v, from, |s.blocks[from].instrs|)
    ensures InstrUsable(Effect(s, i), a, s.cur, |s.blocks[s.cur].instrs|)
  {
    hide Operands, Defines;
    var s', n := Effect(s, i), |s.blocks[s.cur].instrs|;
    AppendStays(s, i);
    forall o | o in Operands(i) ensures Usable(s', a, o, s.cur, n) {
      assert Now(s, a, o);
      assert Usable(s, a, o, s.cur, n);
      UsableStays(s, a, s', a, o, s.cur, n, n);
    }
    if i.Phi? {
      forall k | 0 <= k < |i.incoming|
        ensures var (v, from) := i.incoming[k];
                from < |s'.blocks| && Usable(s', a, v, from, |s'.blocks[from].instrs|)
      {
        var (v, from) := i.incoming[k];
        UsableStays(s, a, s', a, v, from, |s.blocks[from].instrs|, |s'.blocks[from].instrs|);
      }
    }
  }

  lemma CarriedSelf(s: Fn, a: Labels)
    requires Ready(s) && Scoped(s, a)
    ensures Carried(s, a, s, a)
  {
  }

  lemma BuildScoped(s: Fn, a: Labels, i: Instr)
    requires Ready(s) && IsPure(i) && Scoped(s, a) && Ready1(s, a, i)
    ensures Result(s, a, Build(s, i), a)
  {
    hide Scoped, Carried, PureValue;
    if AllConst(i) && PureValue(i, map[]).Some? {
      CarriedSelf(s, a);
    } else {
      AppendScoped(s, a, i);
    }
  }

  // A new block, whose label can be chosen.
  lemma NewScoped(s: Fn, a: Labels, s': Fn, above: set<nat>)
    requires Ready(s) && Scoped(s, a) && (s' == NewAfter(s) || exists b: nat :: s' == NewBefore(s, b))
    requires |s.blocks| in above
    ensures Carried(s, a, s', a + [above])
  {
    hide InsertAfter, InsertBefore, Laid, Edge, InstrUsable, TermUsable, Usable;
    NewEdges(s, s');
    var a' := a + [above];
    assert s'.blocks == s.blocks + [Block([], None)];
    NothingUsed(s', a', |s.blocks|);
    forall b | 0 <= b < |s.blocks|
      ensures TermUsable(s', a', b)
      ensures forall j :: 0 <= j < |s'.blocks[b].instrs| ==> InstrUsable(s', a', b, j)
    {
      TermStays(s, a, s', a', b);
      forall j | 0 <= j < |s'.blocks[b].instrs| ensures InstrUsable(s', a', b, j) {
        InstrStays(s, a, s', a', b, j);
      }
    }
    NewLabelled(s, a, s', above);
  }

  lemma NewLabelled(s: Fn, a: Labels, s': Fn, above: set<nat>)
    requires |s.blocks| == |a| && EdgesLabelled(s, a) && |s'.blocks| == |a| + 1
    requires forall p: nat, b: nat :: Edge(s', p, b) <==> Edge(s, p, b)
    ensures EdgesLabelled(s', a + [above])
  {
    forall p: nat, b: nat | Edge(s', p, b) ensures b < |a| + 1 && (a + [above])[b] <= (a + [above])[p] + {b} {
      assert Edge(s, p, b);
    }
  }

  lemma NothingUsed(s: Fn, a: Labels, b: nat)
    requires b < |s.blocks| == |a| && s.blocks[b] == Block([], None)
    ensures TermUsable(s, a, b)
  {
  }

  // The block in work ends; the labels fit its branches.
  lemma TurnScoped(n: nat, s: Fn, a: Labels, t: Terminator, next: nat)
    requires Ready(s) && n <= next && Open(s, next) && next != s.cur && Scoped(s, a)
    requires forall o :: o in TermOperands(Some(t)) ==> Now(s, a, o)
    requires forall b: nat :: Targets(t, b) ==> b < |a| && a[b] <= a[s.cur] + {b}
    ensures Kept(s, a, Turn(n, s, t, next), a)
  {
    hide InstrUsable, Usable, GrowsFrom, Later, Laid;
    var s' := Turn(n, s, t, next);
    assert s'.blocks[s.cur] == s.blocks[s.cur].(term := Some(t));
    forall b | 0 <= b < |s.blocks|
      ensures TermUsable(s', a, b)
      ensures forall j :: 0 <= j < |s'.blocks[b].instrs| ==> InstrUsable(s', a, b, j)
    {
      if b == s.cur {
        SealUsable(s, a, s', t);
      } else {
        TermStays(s, a, s', a, b);
      }
      forall j | 0 <= j < |s'.blocks[b].instrs| ensures InstrUsable(s', a, b, j) {
        InstrStays(s, a, s', a, b, j);
      }
    }
    TurnLabelled(n, s, a, t, next);
  }

  lemma SealUsable(s: Fn, a: Labels, s': Fn, t: Terminator)
    requires Ready(s) && |s.blocks| == |a| == |s'.blocks| && RegistersStay(s, s')
    requires s'.blocks[s.cur] == s.blocks[s.cur].(term := Some(t))
    requires forall o :: o in TermOperands(Some(t)) ==> Now(s, a, o)
    ensures TermUsable(s', a, s.cur)
  {
    hide TermOperands, Defines;
    forall o | o in TermOperands(Some(t)) ensures Usable(s', a, o, s.cur, |s'.blocks[s.cur].instrs|) {
      assert Now(s, a, o);
      assert Usable(s, a, o, s.cur, |s.blocks[s.cur].instrs|);
      UsableStays(s, a, s', a, o, s.cur, |s.blocks[s.cur].instrs|, |s.blocks[s.cur].instrs|);
    }
  }

  lemma TurnLabelled(n: nat, s: Fn, a: Labels, t: Terminator, next: nat)
    requires Ready(s) && n <= next && Open(s, next) && next != s.cur && |s.blocks| == |a| && EdgesLabelled(s, a)
    requires forall b: nat :: Targets(t, b) ==> b < |a| && a[b] <= a[s.cur] + {b}
    ensures EdgesLabelled(Turn(n, s, t, next), a)
  {
    TurnEdges(n, s, t, next);
    hide Edge, Targets, GrowsFrom, Later;
  }

  // An empty phi in an empty block.
  lemma OpenPhiScoped(s: Fn, a: Labels, b: nat)
    requires Ready(s) && Scoped(s, a) && Open(s, b) && b != s.cur && s.blocks[b].instrs == []
    ensures Carried(s, a, OpenPhi(s, b), a)
  {
    hide Usable, Edge;
    var s' := OpenPhi(s, b);
    assert forall p: nat, q: nat :: Edge(s', p, q) <==> Edge(s, p, q) by {
      PhiEdges(s, s', b);
    }
    forall c | 0 <= c < |s.blocks|
      ensures TermUsable(s', a, c)
      ensures forall j :: 0 <= j < |s'.blocks[c].instrs| ==> InstrUsable(s', a, c, j)
    {
      TermStays(s, a, s', a, c);
      forall j | 0 <= j < |s'.blocks[c].instrs| ensures InstrUsable(s', a, c, j) {
        if c != b {
          InstrStays(s, a, s', a, c, j);
        }
      }
    }
  }

  lemma PhiEdges(s: Fn, s': Fn, b: nat)
    requires b < |s.blocks| == |s'.blocks| && s'.blocks == s.blocks[b := s'.blocks[b]]
    requires s'.blocks[b].term == s.blocks[b].term
    ensures forall p: nat, q: nat :: Edge(s', p, q) <==> Edge(s, p, q)
  {
  }

  // A value goes to the phi of the join.
  lemma CollectScoped(s: Fn, a: Labels, end: nat, v: Operand)
    requires Collecting(s, end) && Scoped(s, a) && Now(s, a, v)
    ensures Carried(s, a, Collect(s, end, v), a)
  {
    hide Edge, Later, GrowsFrom, Collects;
    var s' := Collect(s, end, v);
    assert forall p: nat, q: nat :: Edge(s', p, q) <==> Edge(s, p, q) by {
      PhiEdges(s, s', end);
    }
    assert RegistersStay(s, s');
    forall c | 0 <= c < |s.blocks|
      ensures TermUsable(s', a, c)
      ensures forall j :: 0 <= j < |s'.blocks[c].instrs| ==> InstrUsable(s', a, c, j)
    {
      hide Usable, InstrUsable;
      TermStays(s, a, s', a, c);
      forall j | 0 <= j < |s'.blocks[c].instrs| ensures InstrUsable(s', a, c, j) {
        if c != end || j != 0 {
          InstrStays(s, a, s', a, c, j);
        } else {
          CollectedUsable(s, a, end, v);
        }
      }
    }
  }

  lemma CollectedUsable(s: Fn, a: Labels, end: nat, v: Operand)
    requires Collecting(s, end) && |s.blocks| == |a| && InstrUsable(s, a, end, 0) && Now(s, a, v)
    requires RegistersStay(s, Collect(s, end, v))
    ensures InstrUsable(Collect(s, end, v), a, end, 0)
  {
    hide Defines, GrowsFrom, Later, Collects;
    var s', inc := Collect(s, end, v), Incoming(s, end);
    forall k | 0 <= k < |inc| + 1
      ensures var (w, from) := Incoming(s', end)[k];
              from < |s'.blocks| && Usable(s', a, w, from, |s'.blocks[from].instrs|)
    {
      if k < |inc| {
        var (w, from) := inc[k];
        UsableStays(s, a, s', a, w, from, |s.blocks[from].instrs|, |s'.blocks[from].instrs|);
      } else {
        assert Usable(s, a, v, s.cur, |s.blocks[s.cur].instrs|);
        UsableStays(s, a, s', a, v, s.cur, |s.blocks[s.cur].instrs|, |s'.blocks[s.cur].instrs|);
      }
    }
  }

  // ---------- every construct keeps labels ----------

  // Two pieces of code in a row.
  lemma Chain(s: Fn, a: Labels, s1: Fn, a1: Labels, r: (Fn, Operand), a2: Labels)
    requires Carried(s, a, s1, a1) && Result(s1, a1, r, a2)
    ensures Result(s, a, r, a2)
  {
    CarriedTrans(s, a, s1, a1, r.0, a2);
  }

  lemma ResultFacts(s: Fn, a: Labels, r: (Fn, Operand), a': Labels)
    requires Result(s, a, r, a')
    ensures Carried(s, a, r.0, a') && Now(r.0, a', r.1)
    ensures Ready(r.0) && Scoped(r.0, a') && r.0.cur < |a'|
  {
  }

  lemma CarriedFacts(s: Fn, a: Labels, s': Fn, a': Labels)
    requires Carried(s, a, s', a')
    ensures Kept(s, a, s', a') && Ready(s) && Ready(s') && Scoped(s, a) && Scoped(s', a')
    ensures s.cur < |a| <= |a'| && s'.cur < |a'| && a <= a' && a[s.cur] <= a'[s'.cur]
  {
  }

  lemma KeptFacts(s: Fn, a: Labels, s': Fn, a': Labels)
    requires Kept(s, a, s', a')
    ensures Ready(s) && Ready(s') && Scoped(s, a) && Scoped(s', a') && s'.cur < |a'| && a <= a'
  {
  }

  lemma ConstNow(s: Fn, a: Labels, o: Operand)
    requires Ready(s) && s.cur < |a| && o.Const?
    ensures Now(s, a, o)
  {
  }

  // One operator on operands that can be read.
  lemma BinaryScoped(s: Fn, a: Labels, i: Instr, v: Operand, w: Operand)
    requires Ready(s) && Scoped(s, a) && Now(s, a, v) && Now(s, a, w) && IsPure(i)
    requires forall o :: o in Operands(i) ==> o == v || o == w || o.Const?
    ensures Result(s, a, Build(s, i), a)
  {
    hide Scoped, Operands;
    BuildScoped(s, a, i);
  }

  lemma PickScoped(s: Fn, a: Labels, p: Predicate, v: Operand, rand: Operand)
    requires Ready(s) && Scoped(s, a) && Now(s, a, v) && Now(s, a, rand)
    ensures var c := Build(s, ICmp(p, v, rand)); Result(s, a, Build(c.0, Select(c.1, v, rand)), a)
  {
    hide Scoped, Now, Build, Carried, Result;
    var c := Build(s, ICmp(p, v, rand));
    BinaryScoped(s, a, ICmp(p, v, rand), v, rand);
    ResultFacts(s, a, c, a);
    NowLater(s, a, c.0, a, v);
    NowLater(s, a, c.0, a, rand);
    BuildScoped(c.0, a, Select(c.1, v, rand));
    Chain(s, a, c.0, a, Build(c.0, Select(c.1, v, rand)), a);
  }

  lemma GuardedScoped(s: Fn, a: Labels, op: BinOp, v: Operand, rand: Operand)
    requires Ready(s) && Scoped(s, a) && Now(s, a, v) && Now(s, a, rand)
    ensures Result(s, a, EmitGuarded(s, op, v, rand), a)
  {
    hide Scoped, Now, Build, Carried, Result;
    var test := Build(s, ICmp(Eq, rand, ZERO));
    BinaryScoped(s, a, ICmp(Eq, rand, ZERO), rand, rand);
    ResultFacts(s, a, test, a);
    NowLater(s, a, test.0, a, rand);
    var d := Build(test.0, Select(test.1, Const(I(INT64_MAX)), rand));
    BinaryScoped(test.0, a, Select(test.1, Const(I(INT64_MAX)), rand), test.1, rand);
    Chain(s, a, test.0, a, d, a);
    ResultFacts(s, a, d, a);
    NowLater(s, a, d.0, a, v);
    BinaryScoped(d.0, a, Bin(op, v, d.1), v, d.1);
    Chain(s, a, d.0, a, Build(d.0, Bin(op, v, d.1)), a);
  }

  lemma OpScoped(s: Fn, a: Labels, op: ArithOp, v: Operand, rand: Operand)
    requires Ready(s) && Scoped(s, a) && Now(s, a, v) && Now(s, a, rand)
    ensures Result(s, a, EmitOp(s, op, v, rand), a)
  {
    hide Scoped, Now, Build, Result, EmitGuarded;
    match op
    case Plus => BinaryScoped(s, a, Bin(Add, v, rand), v, rand);
    case Minus => BinaryScoped(s, a, Bin(Sub, v, rand), v, rand);
    case Times => BinaryScoped(s, a, Bin(Mul, v, rand), v, rand);
    case Divide => GuardedScoped(s, a, SDiv, v, rand);
    case Modulo => GuardedScoped(s, a, SRem, v, rand);
    case Min => PickScoped(s, a, Slt, v, rand);
    case Max => PickScoped(s, a, Sgt, v, rand);
  }

  lemma CmpScoped(s: Fn, a: Labels, ty: Type, p: Predicate, va: Operand, vb: Operand)
    requires Ready(s) && Scoped(s, a) && Now(s, a, va) && Now(s, a, vb)
    ensures Result(s, a, EmitCmp(s, ty, p, va, vb), a)
  {
    hide Scoped, Now, Build, Carried, Result;
    if ty.TInt? {
      BinaryScoped(s, a, ICmp(p, va, vb), va, vb);
    } else {
      var x := Build(s, ZExt(va));
      BinaryScoped(s, a, ZExt(va), va, va);
      ResultFacts(s, a, x, a);
      NowLater(s, a, x.0, a, vb);
      var y := Build(x.0, ZExt(vb));
      BinaryScoped(x.0, a, ZExt(vb), vb, vb);
      Chain(s, a, x.0, a, y, a);
      ResultFacts(x.0, a, y, a);
      NowLater(x.0, a, y.0, a, x.1);
      BinaryScoped(y.0, a, ICmp(p, x.1, y.1), x.1, y.1);
      Chain(s, a, y.0, a, Build(y.0, ICmp(p, x.1, y.1)), a);
    }
  }

  // An instruction without operands.
  lemma PlainScoped(s: Fn, a: Labels, i: Instr)
    requires Ready(s) && Scoped(s, a) && Operands(i) == [] && !i.Phi?
    ensures Carried(s, a, Effect(s, i), a)
    ensures Defines(i) ==> Result(s, a, Append(s, i), a)
  {
    hide Scoped;
    AppendScoped(s, a, i);
  }

  // ---------- lazy loads ----------

  // The label of a block that is reached only through the block in work.
  function Below(s: Fn, a: Labels, b: nat): set<nat>
    requires Ready(s) && s.cur < |a|
  {
    a[s.cur] + {b}
  }

  lemma LoadTestScoped(s: Fn, a: Labels, g: nat) returns (a': Labels)
    requires Ready(s) && Scoped(s, a)
    ensures var n := |s.blocks|;
            && Result(s, a, LoadTest(s, g), a') && n == |a| && a' == a + [Below(s, a, n)] + [Below(s, a, n + 1)]
  {
    hide *;
    var n := |s.blocks|;
    LabelCount(s, a);
    LoadTestParts(s, g);
    var s1 := NewAfter(s);
    var s2 := NewBefore(s1, n);
    var a1 := a + [Below(s, a, n)];
    a' := a1 + [Below(s, a, n + 1)];
    NewBlock(s, a, s1, n);
    NewBlockIn(s, a, s1, a1, n, s2);
    CarriedTrans(s, a, s1, a1, s2, a');
    TestScoped(s, a, s2, a', g);
  }

  // The test of the done flag, behind new blocks.
  lemma TestScoped(s: Fn, a: Labels, s2: Fn, a': Labels, g: nat)
    requires Carried(s, a, s2, a') && Ready(s2) && Scoped(s2, a')
    ensures Ready(Effect(s2, LoadDone(g)))
    ensures Result(s, a, Build(Effect(s2, LoadDone(g)), ICmp(Eq, Append(s2, LoadDone(g)).1, FALSE)), a')
  {
    hide Scoped, Now, Build, Carried, Result;
    var done := Append(s2, LoadDone(g));
    PlainScoped(s2, a', LoadDone(g));
    Chain(s, a, s2, a', done, a');
    ResultFacts(s, a, done, a');
    BinaryScoped(done.0, a', ICmp(Eq, done.1, FALSE), done.1, done.1);
    Chain(s, a, done.0, a', Build(done.0, ICmp(Eq, done.1, FALSE)), a');
  }

  lemma NewBlock(s: Fn, a: Labels, s': Fn, n: nat)
    requires Ready(s) && Scoped(s, a) && s' == NewAfter(s) && n == |s.blocks|
    ensures s.cur < |a| && Carried(s, a, s', a + [Below(s, a, n)])
    ensures Ready(s') && s'.cur == s.cur && |s'.blocks| == n + 1 && Scoped(s', a + [Below(s, a, n)])
  {
    NewScoped(s, a, s', Below(s, a, n));
  }

  // Another new block in front of block b, for the same block in work.
  lemma NewBlockIn(s0: Fn, a0: Labels, s: Fn, a: Labels, b: nat, s': Fn)
    requires Ready(s) && Scoped(s, a) && s' == NewBefore(s, b) && s0.cur < |a0|
    requires Ready(s0)
    ensures Carried(s, a, s', a + [Below(s0, a0, |s.blocks|)])
    ensures Ready(s') && s'.cur == s.cur && |s'.blocks| == |s.blocks| + 1
    ensures Scoped(s', a + [Below(s0, a0, |s.blocks|)])
  {
    NewScoped(s, a, s', Below(s0, a0, |s.blocks|));
  }

  // Leaving for a block behind all blocks on the way to the one in work.
  lemma TurnBelow(n: nat, s: Fn, a: Labels, t: Terminator, next: nat)
    requires Ready(s) && n <= next && Open(s, next) && next != s.cur && Scoped(s, a)
    requires forall o :: o in TermOperands(Some(t)) ==> Now(s, a, o)
    requires forall b: nat :: Targets(t, b) ==> b < |a| && a[b] <= a[s.cur] + {b}
    requires next < |a| && a[s.cur] <= a[next]
    ensures Carried(s, a, Turn(n, s, t, next), a)
  {
    hide Scoped, Now, Targets, TermOperands, GrowsFrom, Later, RegistersStay;
    TurnScoped(n, s, a, t, next);
  }

  lemma LoadInitScoped(s: Fn, a: Labels, n: nat, test: Operand, g: nat)
    requires Ready(s) && Scoped(s, a) && Vacant(s, n) && Vacant(s, n + 1) && Now(s, a, test)
    requires n + 1 < |a| && a[n] == Below(s, a, n) && a[n + 1] == Below(s, a, n + 1)
    ensures Carried(s, a, LoadInit(s, n, test, g), a)
  {
    hide Scoped, Now, Carried, GrowsFrom, Later;
    var s1 := Turn(n, s, CondBr(test, n + 1, n), n + 1);
    TurnBelow(n, s, a, CondBr(test, n + 1, n), n + 1);
    CarriedFacts(s, a, s1, a);
    var s2 := Effect(s1, CallInit(g));
    PlainScoped(s1, a, CallInit(g));
    CarriedTrans(s, a, s1, a, s2, a);
    CarriedFacts(s, a, s2, a);
    var s3 := Turn(n, s2, Br(n), n);
    TurnScoped(n, s2, a, Br(n), n);
    CarriedKept(s, a, s2, a, s3, a);
  }

  lemma CarriedKept(s1: Fn, a1: Labels, s2: Fn, a2: Labels, s3: Fn, a3: Labels)
    requires Carried(s1, a1, s2, a2) && Kept(s2, a2, s3, a3)
    requires s1.cur < |a1| && s3.cur < |a3| && a1[s1.cur] <= a3[s3.cur]
    ensures Carried(s1, a1, s3, a3)
  {
    hide Scoped, RegistersStay;
    KeptTrans(s1, a1, s2, a2, s3, a3);
  }

  lemma LoadScoped(gs: seq<Global>, s: Fn, a: Labels, g: nat) returns (a': Labels)
    requires Ready(s) && Scoped(s, a) && g < |gs|
    ensures Result(s, a, EmitLoad(gs, s, g), a')
  {
    hide Scoped, Now, Carried, Result, GrowsFrom, Later, LoadTest, LoadInit;
    if gs[g].Eager? {
      a' := a;
      PlainScoped(s, a, Load(g));
    } else {
      var n := |s.blocks|;
      var test := LoadTest(s, g);
      a' := LoadTestScoped(s, a, g);
      ResultFacts(s, a, test, a');
      LoadInitScoped(test.0, a', n, test.1, g);
      var s1 := LoadInit(test.0, n, test.1, g);
      CarriedTrans(s, a, test.0, a', s1, a');
      CarriedFacts(s, a, s1, a');
      PlainScoped(s1, a', Load(g));
      Chain(s, a, s1, a', Append(s1, Load(g)), a');
    }
  }

  // ---------- expressions ----------

  lemma {:induction false} EmitScoped(gs: seq<Global>, limit: nat, s: Fn, a: Labels, e: Expr) returns (a': Labels)
    requires Ready(s) && Scoped(s, a) && Generates(gs, limit, e)
    ensures Result(s, a, Emit(gs, limit, s, e), a')
    decreases e, 3
  {
    hide Scoped, Now, Carried, Result, GrowsFrom, Build, EmitCmp, EmitArith, EmitIf, EmitLogicFirst, EmitIn, EmitLoad;
    hide OpenJoin;
    match e
    case Lit(v) =>
      a' := a;
      ConstScoped(s, a, Const(v));
    case Global(g) => a' := LoadScoped(gs, s, a, g);
    case Arith(op, args) =>
      if Unit(op).Some? {
        ConstScoped(s, a, Const(Unit(op).value));
        a' := ArithScoped(gs, limit, s, a, op, Const(Unit(op).value), args);
      } else {
        var a1 := EmitScoped(gs, limit, s, a, args[0]);
        var r := Emit(gs, limit, s, args[0]);
        ResultFacts(s, a, r, a1);
        a' := ArithScoped(gs, limit, r.0, a1, op, r.1, args[1..]);
        Chain(s, a, r.0, a1, EmitArith(gs, limit, r.0, op, r.1, args[1..]), a');
      }
    case Cmp(p, x, y) =>
      a' := PairScoped(gs, limit, s, a, e, x, y);
      var va := Emit(gs, limit, s, x);
      var vb := Emit(gs, limit, va.0, y);
      var ty := Resolve(gs, limit, x).value;
      CarriedFacts(s, a, vb.0, a');
      CmpScoped(vb.0, a', ty, p, va.1, vb.1);
      Chain(s, a, vb.0, a', EmitCmp(vb.0, ty, p, va.1, vb.1), a');
    case Logic(conj, args) => a' := LogicFirstScoped(gs, limit, s, a, conj, args);
    case Negate(x) =>
      a' := EmitScoped(gs, limit, s, a, x);
      var r := Emit(gs, limit, s, x);
      ResultFacts(s, a, r, a');
      BinaryScoped(r.0, a', Not(r.1), r.1, r.1);
      Chain(s, a, r.0, a', Build(r.0, Not(r.1)), a');
    case In(args) =>
      if |args| < 2 {
        a' := a;
        ConstScoped(s, a, FALSE);
      } else {
        a' := InFirstScoped(gs, limit, s, a, args);
      }
    case If(_, _, _) => a' := IfScoped(gs, limit, s, a, e);
  }

  lemma ConstScoped(s: Fn, a: Labels, o: Operand)
    requires Ready(s) && Scoped(s, a) && o.Const?
    ensures Result(s, a, (s, o), a) && s.cur < |a| && Now(s, a, o)
  {
  }

  // Two operands; both can be read afterwards.
  lemma {:induction false} PairScoped(gs: seq<Global>, limit: nat, s: Fn, a: Labels, bound: Expr, x: Expr, y: Expr)
    returns (a': Labels)
    requires x < bound && y < bound
    requires Ready(s) && Scoped(s, a) && Generates(gs, limit, x) && Generates(gs, limit, y)
    ensures var va := Emit(gs, limit, s, x);
            var vb := Emit(gs, limit, va.0, y);
            Carried(s, a, vb.0, a') && Now(vb.0, a', va.1) && Now(vb.0, a', vb.1)
    decreases bound, 0
  {
    hide Scoped, Now, Carried, Result, GrowsFrom, Emit, Generates;
    var va := Emit(gs, limit, s, x);
    var vb := Emit(gs, limit, va.0, y);
    var a1 := EmitScoped(gs, limit, s, a, x);
    ResultFacts(s, a, va, a1);
    a' := EmitScoped(gs, limit, va.0, a1, y);
    ResultFacts(va.0, a1, vb, a');
    NowLater(va.0, a1, vb.0, a', va.1);
    CarriedTrans(s, a, va.0, a1, vb.0, a');
  }

  lemma {:induction false} ArithScoped(gs: seq<Global>, limit: nat, s: Fn, a: Labels, op: ArithOp, v: Operand,
                                       args: seq<Expr>)
    returns (a': Labels)
    requires Ready(s) && Scoped(s, a) && s.cur < |a| && Now(s, a, v)
    requires forall i :: 0 <= i < |args| ==> Generates(gs, limit, args[i])
    ensures Result(s, a, EmitArith(gs, limit, s, op, v, args), a')
    decreases args, 0
  {
    hide Scoped, Now, Carried, Result, GrowsFrom, Emit, EmitOp, Generates;
    if args == [] {
      a' := a;
      SelfScoped(s, a, v);
    } else {
      var a1 := EmitScoped(gs, limit, s, a, args[0]);
      var r := Emit(gs, limit, s, args[0]);
      ResultFacts(s, a, r, a1);
      NowLater(s, a, r.0, a1, v);
      OpScoped(r.0, a1, op, v, r.1);
      var w := EmitOp(r.0, op, v, r.1);
      Chain(s, a, r.0, a1, w, a1);
      ResultFacts(s, a, w, a1);
      a' := ArithScoped(gs, limit, w.0, a1, op, w.1, args[1..]);
      Chain(s, a, w.0, a1, EmitArith(gs, limit, w.0, op, w.1, args[1..]), a');
    }
  }

  lemma SelfScoped(s: Fn, a: Labels, v: Operand)
    requires Ready(s) && Scoped(s, a) && s.cur < |a| && Now(s, a, v)
    ensures Result(s, a, (s, v), a)
  {
  }

  // ---------- connectives and membership ----------

  // The join end is reached from the block in work or blocks like it.
  ghost predicate Joining(s: Fn, a: Labels, end: nat) {
    Collecting(s, end) && Scoped(s, a) && end < |a| && a[end] <= a[s.cur] + {end}
  }

  lemma OpenJoinScoped(s: Fn, a: Labels)
    requires Ready(s) && Scoped(s, a)
    ensures var n := |s.blocks|;
            && s.cur < |a| == n && Carried(s, a, OpenJoin(s), a + [Below(s, a, n)])
            && Joining(OpenJoin(s), a + [Below(s, a, n)], n)
  {
    hide Scoped, Carried, GrowsFrom, Laid, InsertAfter;
    var n := |s.blocks|;
    var s1 := NewAfter(s);
    NewBlock(s, a, s1, n);
    var a1 := a + [Below(s, a, n)];
    CarriedFacts(s, a, s1, a1);
    OpenPhiScoped(s1, a1, n);
    CarriedTrans(s, a, s1, a1, OpenJoin(s), a1);
    CarriedFacts(s, a, OpenJoin(s), a1);
  }

  // What is compiled on the way to the join.
  lemma JoiningLater(s: Fn, a: Labels, s': Fn, a': Labels, end: nat)
    requires Joining(s, a, end) && Carried(s, a, s', a') && Collecting(s', end)
    ensures Joining(s', a', end)
  {
    hide Scoped, RegistersStay;
  }

  // At the join, the phi can be read.
  lemma JoinResult(s0: Fn, a0: Labels, s: Fn, a: Labels, s': Fn, a': Labels, end: nat)
    requires Carried(s0, a0, s, a) && Kept(s, a, s', a') && s0.cur < |a0| && end < |a| && a0[s0.cur] <= a[end]
    requires s'.cur == end && PhiHead(s', end)
    ensures Result(s0, a0, (s', Reg(end, 0)), a')
  {
    hide RegistersStay;
    CarriedKept(s0, a0, s, a, s', a');
  }

  lemma CloseScoped(s: Fn, a: Labels, end: nat)
    requires Joining(s, a, end)
    ensures Kept(s, a, CloseJoin(s, end), a)
  {
    hide Scoped, Now, Kept, Joins;
    TurnScoped(end, s, a, Br(end), end);
  }

  lemma LogicTestScoped(s: Fn, a: Labels, conj: bool, end: nat, v: Operand) returns (a': Labels)
    requires Joining(s, a, end) && Now(s, a, v)
    ensures Carried(s, a, LogicTest(s, conj, end, v), a') && Joining(LogicTest(s, conj, end, v), a', end)
  {
    hide Scoped, Now, Carried, Result, GrowsFrom, Collects, Later, Laid, Build, NewAfter;
    var next := |s.blocks|;
    var i := ICmp(if conj then Eq else Ne, v, FALSE);
    LogicTestParts(s, conj, end, v);
    var s1 := NewAfter(s);
    NewBlock(s, a, s1, next);
    a' := a + [Below(s, a, next)];
    NowLater(s, a, s1, a', v);
    var test := Build(s1, i);
    BinaryScoped(s1, a', i, v, v);
    Chain(s, a, s1, a', test, a');
    ResultFacts(s, a, test, a');
    TurnBelow(end, test.0, a', CondBr(test.1, end, next), next);
    CarriedTrans(s, a, test.0, a', LogicTest(s, conj, end, v), a');
    JoiningLater(s, a, LogicTest(s, conj, end, v), a', end);
  }

  lemma LogicStepScoped(s: Fn, a: Labels, conj: bool, end: nat, v: Operand, rand: Operand)
    requires Joining(s, a, end) && Now(s, a, v) && Now(s, a, rand)
    ensures var w := LogicStep(s, conj, end, v, rand);
            Carried(s, a, w.0, a) && Joining(w.0, a, end) && Now(w.0, a, w.1)
  {
    hide Scoped, Now, Carried, Result, GrowsFrom, Collects, Later, Build, Collect;
    var i := Bin(if conj then And else Or, v, rand);
    var w := Build(s, i);
    BinaryScoped(s, a, i, v, rand);
    ResultFacts(s, a, w, a);
    GrowsCollects(end, s, w.0);
    StillCollecting(s, w.0, end);
    CollectScoped(w.0, a, end, w.1);
    var s1 := Collect(w.0, end, w.1);
    NowLater(w.0, a, s1, a, w.1);
    CarriedTrans(s, a, w.0, a, s1, a);
    JoiningLater(s, a, s1, a, end);
  }

  lemma StillCollecting(s: Fn, s': Fn, end: nat)
    requires Collecting(s, end) && Collects(end, s, s')
    ensures Collecting(s', end)
  {
  }

  lemma {:induction false} LogicFirstScoped(gs: seq<Global>, limit: nat, s: Fn, a: Labels, conj: bool, args: seq<Expr>)
    returns (a': Labels)
    requires Ready(s) && Scoped(s, a) && args != []
    requires forall i :: 0 <= i < |args| ==> Generates(gs, limit, args[i])
    ensures Result(s, a, (EmitLogicFirst(gs, limit, s, conj, args), Reg(|s.blocks|, 0)), a')
    decreases args, 1
  {
    hide Scoped, Now, Carried, Result, GrowsFrom, Collects, Later, Kept, Emit, EmitLogic, OpenJoin, Collect, Generates;
    hide Joins, PhiHead;
    var end := |s.blocks|;
    LabelCount(s, a);
    var s1, a1 := OpenJoin(s), a + [Below(s, a, end)];
    OpenJoinScoped(s, a);
    var r := Emit(gs, limit, s1, args[0]);
    var a2 := EmitScoped(gs, limit, s1, a1, args[0]);
    ResultFacts(s1, a1, r, a2);
    GrowsCollects(end, s1, r.0);
    StillCollecting(s1, r.0, end);
    var s2 := Collect(r.0, end, r.1);
    CollectScoped(r.0, a2, end, r.1);
    NowLater(r.0, a2, s2, a2, r.1);
    CarriedTrans(s1, a1, r.0, a2, s2, a2);
    JoiningLater(s1, a1, s2, a2, end);
    CarriedTrans(s, a, s1, a1, s2, a2);
    a' := LogicScoped(gs, limit, s2, a2, conj, end, r.1, args[1..]);
    CarriedFacts(s1, a1, s2, a2);
    assert a1[end] == Below(s, a, end) == a2[end];
    JoinResult(s, a, s2, a2, EmitLogicFirst(gs, limit, s, conj, args), a', end);
  }

  lemma {:induction false} LogicScoped(gs: seq<Global>, limit: nat, s: Fn, a: Labels, conj: bool, end: nat, v: Operand,
                                       args: seq<Expr>)
    returns (a': Labels)
    requires Joining(s, a, end) && Now(s, a, v)
    requires forall i :: 0 <= i < |args| ==> Generates(gs, limit, args[i])
    ensures Kept(s, a, EmitLogic(gs, limit, s, conj, end, v, args), a')
    decreases args, 0
  {
    hide Scoped, Now, Carried, Result, GrowsFrom, Collects, Later, Kept, Emit, LogicTest, LogicStep, Generates, Joins;
    hide CloseJoin;
    if args == [] {
      a' := a;
      CloseScoped(s, a, end);
    } else {
      var s1 := LogicTest(s, conj, end, v);
      var a1 := LogicTestScoped(s, a, conj, end, v);
      NowLater(s, a, s1, a1, v);
      var r := Emit(gs, limit, s1, args[0]);
      var a2 := EmitScoped(gs, limit, s1, a1, args[0]);
      ResultFacts(s1, a1, r, a2);
      GrowsCollects(end, s1, r.0);
      StillCollecting(s1, r.0, end);
      JoiningLater(s1, a1, r.0, a2, end);
      NowLater(s1, a1, r.0, a2, v);
      var w := LogicStep(r.0, conj, end, v, r.1);
      LogicStepScoped(r.0, a2, conj, end, v, r.1);
      CarriedTrans(s, a, s1, a1, r.0, a2);
      CarriedTrans(s, a, r.0, a2, w.0, a2);
      a' := LogicScoped(gs, limit, w.0, a2, conj, end, w.1, args[1..]);
      CarriedFacts(s, a, w.0, a2);
      KeptTrans(s, a, w.0, a2, EmitLogic(gs, limit, w.0, conj, end, w.1, args[1..]), a');
    }
  }

  lemma InTestScoped(s: Fn, a: Labels, ty: Type, end: nat, va: Operand, vb: Operand) returns (a': Labels)
    requires Joining(s, a, end) && Now(s, a, va) && Now(s, a, vb)
    ensures Carried(s, a, InTest(s, ty, end, va, vb), a') && Joining(InTest(s, ty, end, va, vb), a', end)
  {
    hide Scoped, Now, Carried, Result, GrowsFrom, Collects, Later, Laid, EmitCmp, NewBefore, Collect;
    InTestParts(s, ty, end, va, vb);
    var c := EmitCmp(s, ty, Eq, va, vb);
    CmpScoped(s, a, ty, Eq, va, vb);
    ResultFacts(s, a, c, a);
    var test := |c.0.blocks|;
    var s1 := NewBefore(c.0, end);
    a' := a + [Below(c.0, a, test)];
    NewBlockIn(c.0, a, c.0, a, end, s1);
    NowLater(c.0, a, s1, a', c.1);
    CarriedTrans(s, a, c.0, a, s1, a');
    var s2 := Collect(s1, end, c.1);
    CollectScoped(s1, a', end, c.1);
    NowLater(s1, a', s2, a', c.1);
    CarriedTrans(s, a, s1, a', s2, a');
    CarriedFacts(s, a, s2, a');
    CarriedFacts(s1, a', s2, a');
    CarriedFacts(c.0, a, s1, a');
    TurnBelow(end, s2, a', CondBr(c.1, end, test), test);
    CarriedTrans(s, a, s2, a', InTest(s, ty, end, va, vb), a');
    JoiningLater(s, a, InTest(s, ty, end, va, vb), a', end);
  }

  lemma {:induction false} InFirstScoped(gs: seq<Global>, limit: nat, s: Fn, a: Labels, args: seq<Expr>)
    returns (a': Labels)
    requires Ready(s) && Scoped(s, a) && |args| >= 2 && Resolve(gs, limit, args[0]).Some?
    requires forall i :: 0 <= i < |args| ==> Generates(gs, limit, args[i])
    ensures var ty := Resolve(gs, limit, args[0]).value;
            var end := |s.blocks|;
            Result(s, a, (EmitIn(gs, limit, OpenJoin(s), ty, end, args, 1), Reg(end, 0)), a')
    decreases args, |args|
  {
    hide Scoped, Now, Carried, Result, GrowsFrom, Collects, Later, Kept, EmitIn, OpenJoin, Generates, Resolve;
    hide PhiHead;
    var end := |s.blocks|;
    var ty := Resolve(gs, limit, args[0]).value;
    LabelCount(s, a);
    var s1, a1 := OpenJoin(s), a + [Below(s, a, end)];
    OpenJoinScoped(s, a);
    a' := InScoped(gs, limit, s1, a1, ty, end, args, 1);
    JoinResult(s, a, s1, a1, EmitIn(gs, limit, s1, ty, end, args, 1), a', end);
  }

  lemma {:induction false} InScoped(gs: seq<Global>, limit: nat, s: Fn, a: Labels, ty: Type, end: nat,
                                    args: seq<Expr>, k: nat)
    returns (a': Labels)
    requires Joining(s, a, end) && 1 <= k <= |args|
    requires forall i :: 0 <= i < |args| ==> Generates(gs, limit, args[i])
    ensures Kept(s, a, EmitIn(gs, limit, s, ty, end, args, k), a')
    decreases args, |args| - k
  {
    hide Scoped, Now, Carried, Result, GrowsFrom, Collects, Later, Kept, Emit, InTest, Generates, Joins, CloseJoin;
    hide Collect;
    if k == |args| {
      a' := a;
      var s1 := Collect(s, end, FALSE);
      LabelCount(s, a);
      ConstNow(s, a, FALSE);
      CollectScoped(s, a, end, FALSE);
      JoiningLater(s, a, s1, a, end);
      CloseScoped(s1, a, end);
      CarriedFacts(s, a, s1, a);
      KeptTrans(s, a, s1, a, CloseJoin(s1, end), a);
    } else {
      var va := Emit(gs, limit, s, args[0]);
      var a1 := EmitScoped(gs, limit, s, a, args[0]);
      ResultFacts(s, a, va, a1);
      GrowsCollects(end, s, va.0);
      StillCollecting(s, va.0, end);
      JoiningLater(s, a, va.0, a1, end);
      var vb := Emit(gs, limit, va.0, args[k]);
      var a2 := EmitScoped(gs, limit, va.0, a1, args[k]);
      ResultFacts(va.0, a1, vb, a2);
      NowLater(va.0, a1, vb.0, a2, va.1);
      GrowsCollects(end, va.0, vb.0);
      StillCollecting(va.0, vb.0, end);
      JoiningLater(va.0, a1, vb.0, a2, end);
      var s1 := InTest(vb.0, ty, end, va.1, vb.1);
      var a3 := InTestScoped(vb.0, a2, ty, end, va.1, vb.1);
      CarriedTrans(s, a, va.0, a1, vb.0, a2);
      CarriedTrans(s, a, vb.0, a2, s1, a3);
      a' := InScoped(gs, limit, s1, a3, ty, end, args, k + 1);
      CarriedFacts(s, a, s1, a3);
      KeptTrans(s, a, s1, a3, EmitIn(gs, limit, s1, ty, end, args, k + 1), a');
    }
  }

  // ---------- the conditional ----------

  lemma IfBlocksScoped(s: Fn, a: Labels) returns (a': Labels)
    requires Ready(s) && Scoped(s, a)
    ensures var n := |s.blocks|;
            && n == |a| && s.cur < |a| && Carried(s, a, IfBlocks(s), a')
            && Waits(IfBlocks(s), a', a[s.cur], {n, n + 1, n + 2})
  {
    hide Scoped, Carried, GrowsFrom, Laid, InsertAfter, InsertBefore;
    var n := |s.blocks|;
    var s1 := NewAfter(s);
    NewBlock(s, a, s1, n);
    var a1 := a + [Below(s, a, n)];
    var s2 := NewBefore(s1, n);
    NewBlockIn(s, a, s1, a1, n, s2);
    var a2 := a1 + [Below(s, a, n + 1)];
    NewBlockIn(s, a, s2, a2, n, NewBefore(s2, n));
    a' := a2 + [Below(s, a, n + 2)];
    CarriedTrans(s, a, s1, a1, s2, a2);
    CarriedTrans(s, a, s2, a2, IfBlocks(s), a');
    assert n == |a| by {
      CarriedFacts(s, a, s1, a1);
      LabelCount(s, a);
    }
  }

  lemma LabelCount(s: Fn, a: Labels)
    requires Scoped(s, a)
    ensures |s.blocks| == |a| && (Ready(s) ==> s.cur < |a|)
  {
  }

  // The blocks in waiting are still empty, and reached only behind the blocks in base; so is the block in work.
  ghost predicate Waits(s: Fn, a: Labels, base: set<nat>, waiting: set<nat>) {
    && Ready(s) && Scoped(s, a) && s.cur < |a| && base <= a[s.cur]
    && forall b :: b in waiting ==> b < |a| && Vacant(s, b) && a[b] == base + {b}
  }

  lemma WaitsLater(s: Fn, a: Labels, s': Fn, a': Labels, base: set<nat>, waiting: set<nat>)
    requires Waits(s, a, base, waiting) && Grows(s, s') && Carried(s, a, s', a')
    ensures Waits(s', a', base, waiting)
  {
    hide Scoped, Carried;
    CarriedFacts(s, a, s', a');
    LabelCount(s, a);
    hide Laid;
  }

  // The block in work branches to waiting blocks, and one of them comes next.
  lemma WaitsTurn(n: nat, s: Fn, a: Labels, base: set<nat>, waiting: set<nat>, t: Terminator, next: nat)
    requires Waits(s, a, base, waiting) && next in waiting && n <= next
    requires forall o :: o in TermOperands(Some(t)) ==> Now(s, a, o)
    requires forall b: nat :: Targets(t, b) ==> b in waiting
    ensures var s' := Turn(n, s, t, next); Waits(s', a, base, waiting - {next}) && Kept(s, a, s', a) && s'.cur == next
    ensures a[next] == base + {next}
  {
    hide Scoped, Now, Targets, TermOperands, GrowsFrom, Later, RegistersStay;
    TurnScoped(n, s, a, t, next);
  }

  lemma WaitsBr(n: nat, s: Fn, a: Labels, base: set<nat>, waiting: set<nat>, target: nat, next: nat)
    requires Waits(s, a, base, waiting) && next in waiting && n <= next && target in waiting
    ensures Ready(s) && Open(s, next) && next != s.cur
    ensures var s' := Turn(n, s, Br(target), next);
            Waits(s', a, base, waiting - {next}) && Kept(s, a, s', a) && s'.cur == next
  {
    hide Scoped, Kept, GrowsFrom, Later, Laid;
    WaitsTurn(n, s, a, base, waiting, Br(target), next);
  }

  lemma WaitsCond(n: nat, s: Fn, a: Labels, base: set<nat>, waiting: set<nat>, c: Operand, onTrue: nat, onFalse: nat)
    requires Waits(s, a, base, waiting) && n <= onTrue && onTrue in waiting && onFalse in waiting && Now(s, a, c)
    ensures Ready(s) && Open(s, onTrue) && onTrue != s.cur
    ensures var s' := Turn(n, s, CondBr(c, onTrue, onFalse), onTrue);
            Waits(s', a, base, waiting - {onTrue}) && Kept(s, a, s', a) && s'.cur == onTrue
  {
    hide Scoped, Kept, GrowsFrom, Later, Laid, Now;
    WaitsTurn(n, s, a, base, waiting, CondBr(c, onTrue, onFalse), onTrue);
  }

  // The construct ends in a block behind those in base.
  lemma EndsBehind(s: Fn, a: Labels, s1: Fn, a1: Labels, s2: Fn, a2: Labels, base: set<nat>, end: nat)
    requires Carried(s, a, s1, a1) && Kept(s1, a1, s2, a2) && s.cur < |a| && base == a[s.cur]
    requires end < |a1| && a1[end] == base + {end} && s2.cur == end
    ensures Carried(s, a, s2, a2)
  {
    hide Scoped, RegistersStay, Carried;
    KeptFacts(s1, a1, s2, a2);
    CarriedKept(s, a, s1, a1, s2, a2);
  }

  lemma {:induction false} IfScoped(gs: seq<Global>, limit: nat, s: Fn, a: Labels, e: Expr) returns (a': Labels)
    requires Ready(s) && Scoped(s, a) && e.If? && Generates(gs, limit, e)
    ensures Result(s, a, EmitIf(gs, limit, s, e), a')
    decreases e, 2
  {
    hide *;
    UnfoldIf(gs, limit, s, e);
    var end := |s.blocks|;
    var s1 := IfBlocks(s);
    var a1 := IfBlocksScoped(s, a);
    CarriedFacts(s, a, s1, a1);
    var base := a[s.cur];
    var rc := Emit(gs, limit, s1, e.c);
    var a2 := EmitScoped(gs, limit, s1, a1, e.c);
    ResultFacts(s1, a1, rc, a2);
    WaitsLater(s1, a1, rc.0, a2, base, {end, end + 1, end + 2});
    WaitsFacts(rc.0, a2, base, {end, end + 1, end + 2});
    a' := ArmsScoped(gs, limit, rc.0, a2, base, end, rc.1, e);
    var q := EmitArms(gs, limit, rc.0, end, rc.1, e);
    CarriedTrans(s, a, s1, a1, rc.0, a2);
    EndsBehind(s, a, rc.0, a2, q.0, a', base, end);
    MakeResult(s, a, q, a');
  }

  lemma MakeResult(s: Fn, a: Labels, r: (Fn, Operand), a': Labels)
    requires Carried(s, a, r.0, a') && Now(r.0, a', r.1)
    ensures Result(s, a, r, a')
  {
  }

  lemma {:induction false} ArmsScoped(gs: seq<Global>, limit: nat, s: Fn, a: Labels, base: set<nat>, end: nat,
                                      cond: Operand, e: Expr)
    returns (a': Labels)
    requires Waits(s, a, base, {end, end + 1, end + 2}) && Now(s, a, cond)
    requires e.If? && Generates(gs, limit, e)
    ensures Vacant(s, end) && Vacant(s, end + 1) && Vacant(s, end + 2)
    ensures var q := EmitArms(gs, limit, s, end, cond, e); Kept(s, a, q.0, a') && Now(q.0, a', q.1)
    decreases e, 1
  {
    hide *;
    WaitsFacts(s, a, base, {end, end + 1, end + 2});
    UnfoldArms(gs, limit, s, end, cond, e);
    var s1 := Turn(end, s, CondBr(cond, end + 1, end + 2), end + 1);
    WaitsCond(end, s, a, base, {end, end + 1, end + 2}, cond, end + 1, end + 2);
    assert {end, end + 1, end + 2} - {end + 1} == {end, end + 2};
    WaitsFacts(s1, a, base, {end, end + 2});
    var rt := Emit(gs, limit, s1, e.t);
    var a1 := EmitScoped(gs, limit, s1, a, e.t);
    ResultFacts(s1, a, rt, a1);
    WaitsLater(s1, a, rt.0, a1, base, {end, end + 2});
    a' := ElseScoped(gs, limit, rt.0, a1, base, end, rt.1, e.f);
    CarriedFacts(s1, a, rt.0, a1);
    KeptTrans(s, a, s1, a, rt.0, a1);
    KeptTrans(s, a, rt.0, a1, EmitElse(gs, limit, rt.0, end, rt.1, e.f).0, a');
  }

  lemma WaitsFacts(s: Fn, a: Labels, base: set<nat>, waiting: set<nat>)
    requires Waits(s, a, base, waiting)
    ensures Ready(s) && Scoped(s, a) && s.cur < |a| == |s.blocks|
    ensures forall b :: b in waiting ==> b < |a| && Vacant(s, b) && a[b] == base + {b} && Open(s, b) && b != s.cur
  {
  }

  lemma {:induction false} ElseScoped(gs: seq<Global>, limit: nat, s: Fn, a: Labels, base: set<nat>, end: nat,
                                      vt: Operand, f: Expr)
    returns (a': Labels)
    requires Waits(s, a, base, {end, end + 2}) && Now(s, a, vt) && Generates(gs, limit, f)
    ensures Vacant(s, end) && Vacant(s, end + 2)
    ensures var q := EmitElse(gs, limit, s, end, vt, f); Kept(s, a, q.0, a') && Now(q.0, a', q.1)
    decreases f, 4
  {
    hide *;
    WaitsFacts(s, a, base, {end, end + 2});
    UnfoldElse(gs, limit, s, end, vt, f);
    var s1 := Turn(end, s, Br(end), end + 2);
    WaitsBr(end, s, a, base, {end, end + 2}, end, end + 2);
    assert {end, end + 2} - {end + 2} == {end};
    WaitsFacts(s1, a, base, {end});
    var rf := Emit(gs, limit, s1, f);
    var a1 := EmitScoped(gs, limit, s1, a, f);
    ResultFacts(s1, a, rf, a1);
    WaitsLater(s1, a, rf.0, a1, base, {end});
    WaitsFacts(rf.0, a1, base, {end});
    CarriedFacts(s1, a, rf.0, a1);
    KeptTrans(s, a, s1, a, rf.0, a1);
    StaysExisting(s, a, rf.0, a1, vt);
    BlocksStay(s, a, rf.0, a1, end + 2);
    a' := a1;
    JoinArms(rf.0, a1, base, end, vt, rf.1);
    KeptTrans(s, a, rf.0, a1, EmitElse(gs, limit, s, end, vt, f).0, a1);
  }

  // Both arms end in the join, whose phi takes a value from each.
  lemma JoinArms(s: Fn, a: Labels, base: set<nat>, end: nat, vt: Operand, vf: Operand)
    requires Waits(s, a, base, {end}) && Exists(s, vt) && Now(s, a, vf) && end + 2 < |s.blocks|
    ensures Ready(Turn(end, s, Br(end), end))
    ensures var q := IfJoin(Turn(end, s, Br(end), end), end, vt, vf); Kept(s, a, q.0, a) && Now(q.0, a, q.1)
  {
    WaitsFacts(s, a, base, {end});
    hide Scoped, Now, Carried, Result, GrowsFrom, Later, Kept, IfJoin, RegistersStay, Waits, Vacant, Laid, Exists;
    var s2 := Turn(end, s, Br(end), end);
    WaitsTurn(end, s, a, base, {end}, Br(end), end);
    KeptFacts(s, a, s2, a);
    StaysThere(s, a, s2, a, vt);
    StaysExisting(s, a, s2, a, vf);
    BlocksStay(s, a, s2, a, end + 2);
    IfJoinScoped(s2, a, end, vt, vf);
    var q := IfJoin(s2, end, vt, vf);
    ResultFacts(s2, a, q, a);
    CarriedFacts(s2, a, q.0, a);
    KeptTrans(s, a, s2, a, q.0, a);
  }

  lemma StaysThere(s: Fn, a: Labels, s': Fn, a': Labels, o: Operand)
    requires Kept(s, a, s', a') && Exists(s, o)
    ensures Exists(s', o)
  {
    hide Scoped, Defines;
  }

  lemma BlocksStay(s: Fn, a: Labels, s': Fn, a': Labels, b: nat)
    requires Kept(s, a, s', a') && b < |s.blocks|
    ensures b < |s'.blocks|
  {
  }

  lemma StaysExisting(s: Fn, a: Labels, s': Fn, a': Labels, o: Operand)
    requires Kept(s, a, s', a') && s.cur < |a| && Now(s, a, o)
    ensures Exists(s', o)
  {
    hide Scoped, Defines;
  }

  lemma IfJoinScoped(s: Fn, a: Labels, end: nat, vt: Operand, vf: Operand)
    requires Ready(s) && Scoped(s, a) && Exists(s, vt) && Exists(s, vf) && end + 2 < |s.blocks|
    ensures Result(s, a, IfJoin(s, end, vt, vf), a)
  {
    hide EdgesLabelled, UsesLabelled, Carried;
    var inc := [(vt, IncomingBlock(vt, end + 1)), (vf, IncomingBlock(vf, end + 2))];
    forall k | 0 <= k < |inc|
      ensures var (v, from) := inc[k]; from < |s.blocks| && Usable(s, a, v, from, |s.blocks[from].instrs|)
    {
      assert k == 0 || k == 1;
    }
    AppendScoped(s, a, Phi(inc));
  }

  // ---------- whole functions ----------

  lemma FreshScoped()
    ensures Ready(FRESH) && Scoped(FRESH, [{0}])
  {
  }

  // The last block ends without a branch.
  lemma FinishScoped(s: Fn, a: Labels, t: Terminator)
    requires Ready(s) && Scoped(s, a) && (t.Ret? || t.RetVoid?)
    requires forall o :: o in TermOperands(Some(t)) ==> Now(s, a, o)
    ensures Scoped(Finish(s, t), a)
  {
    hide InstrUsable, Usable;
    var s' := Finish(s, t);
    assert s'.blocks[s.cur] == s.blocks[s.cur].(term := Some(t));
    assert forall p: nat, b: nat :: Edge(s', p, b) ==> Edge(s, p, b);
    forall b | 0 <= b < |s.blocks|
      ensures TermUsable(s', a, b)
      ensures forall j :: 0 <= j < |s'.blocks[b].instrs| ==> InstrUsable(s', a, b, j)
    {
      if b == s.cur {
        SealUsable(s, a, s', t);
      } else {
        TermStays(s, a, s', a, b);
      }
      forall j | 0 <= j < |s'.blocks[b].instrs| ensures InstrUsable(s', a, b, j) {
        InstrStays(s, a, s', a, b, j);
      }
    }
  }

  lemma BodyScoped(gs: seq<Global>, e: Expr) returns (a: Labels)
    requires Generates(gs, |gs|, e)
    ensures Scoped(CompileBody(gs, e), a)
  {
    hide Scoped, Now, Carried, Result, Emit, Generates, Finish;
    FreshScoped();
    a := EmitScoped(gs, |gs|, FRESH, [{0}], e);
    var r := Emit(gs, |gs|, FRESH, e);
    ResultFacts(FRESH, [{0}], r, a);
    FinishScoped(r.0, a, Ret(r.1));
  }

  lemma InitScoped(gs: seq<Global>, g: nat) returns (a: Labels)
    requires g < |gs| && gs[g].Lazy? && Generates(gs, g, gs[g].def)
    ensures Scoped(CompileInit(gs, g), a)
  {
    hide Scoped, Now, Carried, Result, Emit, Generates, Finish;
    FreshScoped();
    a := EmitScoped(gs, g, FRESH, [{0}], gs[g].def);
    var r := Emit(gs, g, FRESH, gs[g].def);
    ResultFacts(FRESH, [{0}], r, a);
    AppendScoped(r.0, a, Store(g, r.1));
    var s1 := Effect(r.0, Store(g, r.1));
    CarriedFacts(r.0, a, s1, a);
    PlainScoped(s1, a, StoreDone(g));
    CarriedFacts(s1, a, Effect(s1, StoreDone(g)), a);
    FinishScoped(Effect(s1, StoreDone(g)), a, RetVoid);
  }
}
