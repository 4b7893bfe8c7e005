/**
 The shape of the emitted graph: where an expression's operand is defined, how blocks end, and which blocks a
 phi lists.
 */
module Ssa {
  import opened Basics
  import opened IR
  import opened Expressions
  import opened Building
  import opened CodeGen

  // ---------- where operands are defined ----------

  // An operand is a constant that took no control flow to compute, or is defined in the block the builder is
  // left in.
  predicate Here(s: Fn, r: (Fn, Operand)) {
    if r.1.Const? then r.0.cur == s.cur else r.1.block == r.0.cur
  }

  lemma BuildHere(s: Fn, i: Instr)
    requires Ready(s) && IsPure(i)
    ensures Here(s, Build(s, i))
    ensures Build(s, i).1.Const? ==> AllConst(i)
  {
  }

  lemma OpHere(s: Fn, op: ArithOp, v: Operand, rand: Operand)
    requires Ready(s)
    ensures Here(s, EmitOp(s, op, v, rand))
    ensures EmitOp(s, op, v, rand).1.Const? ==> v.Const? && rand.Const?
  {
    hide Build, GrowsFrom;
    match op
    case Plus => BuildHere(s, Bin(Add, v, rand));
    case Minus => BuildHere(s, Bin(Sub, v, rand));
    case Times => BuildHere(s, Bin(Mul, v, rand));
    case Divide => GuardedHere(s, SDiv, v, rand);
    case Modulo => GuardedHere(s, SRem, v, rand);
    case Min =>
      var c := Build(s, ICmp(Slt, v, rand));
      BuildHere(c.0, Select(c.1, v, rand));
    case Max =>
      var c := Build(s, ICmp(Sgt, v, rand));
      BuildHere(c.0, Select(c.1, v, rand));
  }

  lemma GuardedHere(s: Fn, op: BinOp, v: Operand, rand: Operand)
    requires Ready(s)
    ensures Here(s, EmitGuarded(s, op, v, rand))
    ensures EmitGuarded(s, op, v, rand).1.Const? ==> v.Const? && rand.Const?
  {
    hide Build, GrowsFrom;
    var test := Build(s, ICmp(Eq, rand, ZERO));
    var d := Build(test.0, Select(test.1, Const(I(INT64_MAX)), rand));
    BuildHere(test.0, Select(test.1, Const(I(INT64_MAX)), rand));
    BuildHere(d.0, Bin(op, v, d.1));
  }

  lemma CmpHere(s: Fn, ty: Type, p: Predicate, va: Operand, vb: Operand)
    requires Ready(s)
    ensures Here(s, EmitCmp(s, ty, p, va, vb))
    ensures EmitCmp(s, ty, p, va, vb).1.Const? ==> va.Const? && vb.Const?
  {
    hide Build, GrowsFrom;
    if ty.TInt? {
      BuildHere(s, ICmp(p, va, vb));
    } else {
      var a := Build(s, ZExt(va));
      var b := Build(a.0, ZExt(vb));
      BuildHere(s, ZExt(va));
      BuildHere(a.0, ZExt(vb));
      BuildHere(b.0, ICmp(p, a.1, b.1));
    }
  }

  lemma {:induction false} ValueHere(gs: seq<Global>, limit: nat, s: Fn, e: Expr)
    requires Ready(s) && Generates(gs, limit, e)
    ensures Here(s, Emit(gs, limit, s, e))
    decreases e, 1
  {
    hide Build, EmitCmp, EmitArith, EmitIf, EmitLogicFirst, EmitIn, GrowsFrom;
    match e
    case Lit(v) =>
    case Global(g) =>
    case Arith(op, args) =>
      if Unit(op).Some? {
        ArithHere(gs, limit, s, s, op, Const(Unit(op).value), args);
      } else {
        ValueHere(gs, limit, s, args[0]);
        var r := Emit(gs, limit, s, args[0]);
        ArithHere(gs, limit, s, r.0, op, r.1, args[1..]);
      }
    case Cmp(p, x, y) =>
      ValueHere(gs, limit, s, x);
      var a := Emit(gs, limit, s, x);
      ValueHere(gs, limit, a.0, y);
      var b := Emit(gs, limit, a.0, y);
      CmpHere(b.0, Resolve(gs, limit, x).value, p, a.1, b.1);
    case Logic(conj, args) =>
    case Negate(x) =>
      ValueHere(gs, limit, s, x);
      var r := Emit(gs, limit, s, x);
      BuildHere(r.0, Not(r.1));
    case In(args) =>
    case If(_, _, _) =>
  }

  // s0 is the stage at which the first operand was begun, v the value so far.
  lemma {:induction false} ArithHere(gs: seq<Global>, limit: nat, s0: Fn, s: Fn, op: ArithOp, v: Operand,
                                     args: seq<Expr>)
    requires Ready(s) && Here(s0, (s, v))
    requires forall i :: 0 <= i < |args| ==> Generates(gs, limit, args[i])
    ensures Here(s0, EmitArith(gs, limit, s, op, v, args))
    decreases args, 0
  {
    hide Emit, EmitOp, GrowsFrom, Generates;
    if args != [] {
      ValueHere(gs, limit, s, args[0]);
      var r := Emit(gs, limit, s, args[0]);
      OpHere(r.0, op, v, r.1);
      var w := EmitOp(r.0, op, v, r.1);
      ArithHere(gs, limit, s0, w.0, op, w.1, args[1..]);
    }
  }

  // ---------- edges and phis ----------

  predicate Targets(t: Terminator, b: nat) {
    match t
    case Br(target) => target == b
    case CondBr(_, onTrue, onFalse) => onTrue == b || onFalse == b
    case _ => false
  }

  // Block p ends with a branch to block b.
  predicate Edge(s: Fn, p: nat, b: nat) {
    p < |s.blocks| && s.blocks[p].term.Some? && Targets(s.blocks[p].term.value, b)
  }

  // The incoming list names every predecessor of b exactly once and nothing else.
  ghost predicate Exact(s: Fn, b: nat, inc: seq<(Operand, nat)>) {
    && (forall j, k :: 0 <= j < k < |inc| ==> inc[j].1 != inc[k].1)
    && (forall j :: 0 <= j < |inc| ==> Edge(s, inc[j].1, b))
    && (forall p: nat :: Edge(s, p, b) ==> exists j :: 0 <= j < |inc| && inc[j].1 == p)
  }

  // Phis stand at the head of the block and match its predecessors.
  ghost predicate PhiOk(s: Fn, b: nat)
    requires b < |s.blocks|
  {
    forall i :: 0 <= i < |s.blocks[b].instrs| && s.blocks[b].instrs[i].Phi? ==>
                  i == 0 && Exact(s, b, s.blocks[b].instrs[i].incoming)
  }

  // Branches go to existing blocks other than the entry, the two ways of a conditional to different ones.
  predicate TermOk(s: Fn, b: nat) {
    && b < |s.blocks| && s.blocks[b].term.Some?
    && match s.blocks[b].term.value
       case Br(t) => 0 < t < |s.blocks|
       case CondBr(_, t, f) => 0 < t < |s.blocks| && 0 < f < |s.blocks| && t != f
       case _ => true
  }

  ghost predicate NoDangling(s: Fn) {
    forall p: nat, b: nat :: Edge(s, p, b) ==> b < |s.blocks|
  }

  // From s0 to s, where the blocks numbered n and above were made on the way and those in skip are still
  // waiting for their turn.
  ghost predicate Grown(n: nat, skip: set<nat>, s0: Fn, s: Fn) {
    && GrowsFrom(n, s0, s) && s0.cur < n == |s0.blocks| && NoDangling(s)
    && (forall b :: b in skip ==> n <= b && Open(s, b) && b != s.cur)
    && (forall b :: n <= b < |s.blocks| && b !in skip && b != s.cur ==> TermOk(s, b))
    && (s.cur != s0.cur ==> TermOk(s, s0.cur))
    && (forall p: nat, b: nat :: b < n ==> (Edge(s, p, b) <==> Edge(s0, p, b)))
    && (forall b :: n <= b < |s.blocks| && b !in skip ==> PhiOk(s, b))
    && (forall i :: |s0.blocks[s0.cur].instrs| <= i < |s.blocks[s0.cur].instrs| ==> !s.blocks[s0.cur].instrs[i].Phi?)
  }

  lemma GrownSelf(s: Fn)
    requires Ready(s) && NoDangling(s)
    ensures Grown(|s.blocks|, {}, s, s)
  {
  }

  // A block keeps its phi when it only gains other instructions and no edges.
  lemma PhiKept(s: Fn, s': Fn, b: nat)
    requires b < |s.blocks| <= |s'.blocks| && PhiOk(s, b)
    requires s.blocks[b].instrs <= s'.blocks[b].instrs
    requires forall i :: |s.blocks[b].instrs| <= i < |s'.blocks[b].instrs| ==> !s'.blocks[b].instrs[i].Phi?
    requires forall p: nat :: Edge(s', p, b) <==> Edge(s, p, b)
    ensures PhiOk(s', b)
  {
  }

  lemma AppendEdges(s: Fn, i: Instr)
    requires Ready(s)
    ensures forall p: nat, b: nat :: Edge(Effect(s, i), p, b) <==> Edge(s, p, b)
  {
  }

  lemma NewEdges(s: Fn, s': Fn)
    requires s' == NewAfter(s) || exists b: nat :: s' == NewBefore(s, b)
    ensures forall p: nat, b: nat :: Edge(s', p, b) <==> Edge(s, p, b)
  {
    hide InsertAfter, InsertBefore, Laid;
  }

  lemma TurnEdges(n: nat, s: Fn, t: Terminator, next: nat)
    requires Ready(s) && n <= next && Open(s, next) && next != s.cur
    ensures forall p: nat, b: nat :: Edge(Turn(n, s, t, next), p, b) <==> Edge(s, p, b) || (p == s.cur && Targets(t, b))
  {
    hide GrowsFrom, Later;
  }

  // Code is appended to the block in work.
  lemma GrownAppend(n: nat, skip: set<nat>, s0: Fn, s: Fn, i: Instr)
    requires Grown(n, skip, s0, s) && !i.Phi?
    ensures Grown(n, skip, s0, Effect(s, i))
    ensures forall b :: b in skip ==> Effect(s, i).blocks[b] == s.blocks[b]
  {
    hide PhiOk, Exact, Edge;
    var s' := Effect(s, i);
    AppendEdges(s, i);
    forall b | n <= b < |s'.blocks| && b !in skip ensures PhiOk(s', b) {
      PhiKept(s, s', b);
    }
  }

  lemma GrownNew(n: nat, skip: set<nat>, s0: Fn, s: Fn, s': Fn)
    requires Grown(n, skip, s0, s) && (s' == NewAfter(s) || exists b: nat :: b != 0 && s' == NewBefore(s, b))
    ensures Grown(n, skip + {|s.blocks|}, s0, s')
  {
    hide PhiOk, Exact, Edge, InsertAfter, InsertBefore, Laid;
    NewEdges(s, s');
    NewLaid(n, s0, s, s');
    forall b | n <= b < |s'.blocks| && b !in skip + {|s.blocks|} ensures PhiOk(s', b) {
      PhiKept(s, s', b);
    }
  }

  lemma NewLaid(n: nat, s0: Fn, s: Fn, s': Fn)
    requires GrowsFrom(n, s0, s) && (s' == NewAfter(s) || exists b: nat :: b != 0 && s' == NewBefore(s, b))
    ensures Laid(s0) ==> Laid(s')
  {
    hide Laid;
  }

  // An expression is compiled in the middle of a construct.
  lemma GrownBy(n: nat, skip: set<nat>, s0: Fn, s: Fn, s': Fn)
    requires Grown(n, skip, s0, s) && Grown(|s.blocks|, {}, s, s')
    ensures Grown(n, skip, s0, s')
    ensures forall b :: b in skip ==> s'.blocks[b] == s.blocks[b]
    ensures forall p: nat, b: nat :: b < |s.blocks| ==> (Edge(s', p, b) <==> Edge(s, p, b))
  {
    GrowsWeaken(n, s, s');
    GrowsTrans(n, s0, s, s');
    hide PhiOk, Exact, Laid;
    forall b | n <= b < |s'.blocks| && b !in skip ensures PhiOk(s', b) {
      if b < |s.blocks| {
        PhiKept(s, s', b);
      }
    }
  }

  predicate BranchInto(t: Terminator, skip: set<nat>) {
    match t
    case Br(target) => target in skip
    case CondBr(_, onTrue, onFalse) => onTrue in skip && onFalse in skip && onTrue != onFalse
    case _ => false
  }

  // The block in work ends with branches to waiting blocks only; next has no phi, or a complete one.
  lemma GrownTurn(n: nat, skip: set<nat>, s0: Fn, s: Fn, t: Terminator, next: nat)
    requires Grown(n, skip, s0, s) && next in skip
    requires BranchInto(t, skip)
    requires PhiOk(Turn(n, s, t, next), next)
    ensures Grown(n, skip - {next}, s0, Turn(n, s, t, next))
    ensures forall p: nat, b: nat :: Edge(Turn(n, s, t, next), p, b) <==> Edge(s, p, b) || (p == s.cur && Targets(t, b))
  {
    hide PhiOk, Exact, Edge, GrowsFrom, Later;
    GrownReady(n, skip, s0, s);
    var s' := Turn(n, s, t, next);
    GrowsTrans(n, s0, s, s');
    TurnEdges(n, s, t, next);
    assert forall b: nat :: Targets(t, b) ==> b in skip;
    forall b | n <= b < |s'.blocks| && b !in skip ensures PhiOk(s', b) {
      PhiKept(s, s', b);
    }
    HeadKept(n, s0, s, t, next);
  }

  lemma GrownReady(n: nat, skip: set<nat>, s0: Fn, s: Fn)
    requires Grown(n, skip, s0, s)
    ensures Ready(s) && n <= |s.blocks|
  {
  }

  // The block the construct began in gets no new phi.
  lemma HeadKept(n: nat, s0: Fn, s: Fn, t: Terminator, next: nat)
    requires Ready(s) && n <= next && Open(s, next) && next != s.cur && s0.cur < n <= |s.blocks|
    ensures Turn(n, s, t, next).blocks[s0.cur].instrs == s.blocks[s0.cur].instrs
  {
  }

  // ---------- the shape of what is emitted ----------

  // A piece of straight-line code.
  lemma BuildGrown(n: nat, skip: set<nat>, s0: Fn, s: Fn, i: Instr)
    requires Grown(n, skip, s0, s) && IsPure(i)
    ensures Grown(n, skip, s0, Build(s, i).0)
    ensures forall b :: b in skip ==> Build(s, i).0.blocks[b] == s.blocks[b]
    ensures forall p: nat, b: nat :: Edge(Build(s, i).0, p, b) <==> Edge(s, p, b)
  {
    GrownAppend(n, skip, s0, s, i);
  }

  lemma OpGrown(n: nat, skip: set<nat>, s0: Fn, s: Fn, op: ArithOp, v: Operand, rand: Operand)
    requires Grown(n, skip, s0, s)
    ensures Grown(n, skip, s0, EmitOp(s, op, v, rand).0)
  {
    hide Grown, Build, Edge;
    match op
    case Plus => BuildGrown(n, skip, s0, s, Bin(Add, v, rand));
    case Minus => BuildGrown(n, skip, s0, s, Bin(Sub, v, rand));
    case Times => BuildGrown(n, skip, s0, s, Bin(Mul, v, rand));
    case Divide => GuardedGrown(n, skip, s0, s, SDiv, v, rand);
    case Modulo => GuardedGrown(n, skip, s0, s, SRem, v, rand);
    case Min =>
      BuildGrown(n, skip, s0, s, ICmp(Slt, v, rand));
      var c := Build(s, ICmp(Slt, v, rand));
      BuildGrown(n, skip, s0, c.0, Select(c.1, v, rand));
    case Max =>
      BuildGrown(n, skip, s0, s, ICmp(Sgt, v, rand));
      var c := Build(s, ICmp(Sgt, v, rand));
      BuildGrown(n, skip, s0, c.0, Select(c.1, v, rand));
  }

  lemma GuardedGrown(n: nat, skip: set<nat>, s0: Fn, s: Fn, op: BinOp, v: Operand, rand: Operand)
    requires Grown(n, skip, s0, s)
    ensures Grown(n, skip, s0, EmitGuarded(s, op, v, rand).0)
  {
    assert Ready(s);
    hide Grown, Build, Edge;
    var test := Build(s, ICmp(Eq, rand, ZERO));
    BuildGrown(n, skip, s0, s, ICmp(Eq, rand, ZERO));
    var d := Build(test.0, Select(test.1, Const(I(INT64_MAX)), rand));
    BuildGrown(n, skip, s0, test.0, Select(test.1, Const(I(INT64_MAX)), rand));
    BuildGrown(n, skip, s0, d.0, Bin(op, v, d.1));
  }

  lemma CmpGrown(n: nat, skip: set<nat>, s0: Fn, s: Fn, ty: Type, p: Predicate, va: Operand, vb: Operand)
    requires Grown(n, skip, s0, s)
    ensures Grown(n, skip, s0, EmitCmp(s, ty, p, va, vb).0)
    ensures forall b :: b in skip ==> EmitCmp(s, ty, p, va, vb).0.blocks[b] == s.blocks[b]
    ensures forall q: nat, b: nat :: Edge(EmitCmp(s, ty, p, va, vb).0, q, b) <==> Edge(s, q, b)
  {
    hide Grown, Build, Edge;
    if ty.TInt? {
      BuildGrown(n, skip, s0, s, ICmp(p, va, vb));
    } else {
      BuildGrown(n, skip, s0, s, ZExt(va));
      var a := Build(s, ZExt(va));
      BuildGrown(n, skip, s0, a.0, ZExt(vb));
      var b := Build(a.0, ZExt(vb));
      BuildGrown(n, skip, s0, b.0, ICmp(p, a.1, b.1));
    }
  }

  lemma EmptyPhiOk(s: Fn, b: nat)
    requires b < |s.blocks| && s.blocks[b].instrs == []
    ensures PhiOk(s, b)
  {
  }

  lemma LoadTestParts(s: Fn, g: nat)
    requires Ready(s)
    ensures var n := |s.blocks|;
            var s2 := NewBefore(NewAfter(s), n);
            && Ready(s2) && Ready(Effect(s2, LoadDone(g))) && |NewAfter(s).blocks| == n + 1
            && LoadTest(s, g) == Build(Effect(s2, LoadDone(g)), ICmp(Eq, Append(s2, LoadDone(g)).1, FALSE))
  {
    hide GrowsFrom, Laid, Build, InsertAfter, InsertBefore;
  }

  lemma LoadTestGrown(s: Fn, g: nat)
    requires Ready(s) && NoDangling(s)
    ensures var n := |s.blocks|; Grown(n, {n, n + 1}, s, LoadTest(s, g).0)
  {
    hide Grown, GrowsFrom, NoDangling, Build, NewAfter, NewBefore, LoadTest, Effect;
    var n := |s.blocks|;
    LoadTestParts(s, g);
    var s1 := NewAfter(s);
    var s2 := NewBefore(s1, n);
    var skip := {} + {n} + {n + 1};
    GrownSelf(s);
    LoadBlockNotEntry(s);
    GrownNew(n, {}, s, s, s1);
    GrownNew(n, {} + {n}, s, s1, s2);
    GrownAppend(n, skip, s, s2, LoadDone(g));
    BuildGrown(n, skip, s, Effect(s2, LoadDone(g)), ICmp(Eq, Append(s2, LoadDone(g)).1, FALSE));
    assert skip == {n, n + 1};
  }

  lemma LoadBlockNotEntry(s: Fn)
    requires Ready(s)
    ensures |s.blocks| != 0
  {
  }

  lemma LoadInitGrown(n: nat, s0: Fn, s: Fn, test: Operand, g: nat)
    requires Grown(n, {n, n + 1}, s0, s) && Ready(s) && Vacant(s, n) && Vacant(s, n + 1)
    ensures Grown(n, {}, s0, LoadInit(s, n, test, g))
  {
    var t := CondBr(test, n + 1, n);
    var s1 := Turn(n, s, t, n + 1);
    var s2 := Effect(s1, CallInit(g));
    var s3 := Turn(n, s2, Br(n), n);
    hide Grown, PhiOk, Edge, GrowsFrom, Later;
    EmptyPhiOk(s1, n + 1);
    GrownTurn(n, {n, n + 1}, s0, s, t, n + 1);
    assert {n, n + 1} - {n + 1} == {n};
    GrownAppend(n, {n}, s0, s1, CallInit(g));
    EmptyPhiOk(s3, n);
    GrownTurn(n, {n}, s0, s2, Br(n), n);
    assert {n} - {n} == {};
  }

  lemma LoadGrown(gs: seq<Global>, s: Fn, g: nat)
    requires Ready(s) && NoDangling(s) && g < |gs|
    ensures Grown(|s.blocks|, {}, s, EmitLoad(gs, s, g).0)
  {
    var n := |s.blocks|;
    GrownSelf(s);
    hide PhiOk, TermOk, Edge, GrowsFrom, Laid;
    if gs[g].Eager? {
      GrownAppend(n, {}, s, s, Load(g));
    } else {
      var n := |s.blocks|;
      var test := LoadTest(s, g);
      var s1 := LoadInit(test.0, n, test.1, g);
      hide Grown, LoadTest, LoadInit;
      LoadTestGrown(s, g);
      LoadInitGrown(n, s, test.0, test.1, g);
      GrownAppend(n, {}, s, s1, Load(g));
    }
  }

  // ---------- joins ----------

  lemma ExactKept(s: Fn, s': Fn, b: nat, inc: seq<(Operand, nat)>)
    requires Exact(s, b, inc) && forall p: nat :: Edge(s', p, b) <==> Edge(s, p, b)
    ensures Exact(s', b, inc)
  {
  }

  // Every incoming value has its edge, except the last one, which comes from the block in work.
  ghost predicate Pending(s: Fn, end: nat)
    requires PhiHead(s, end)
  {
    var inc := Incoming(s, end);
    inc != [] && inc[|inc| - 1].1 == s.cur && Exact(s, end, inc[..|inc| - 1])
  }

  lemma OpenJoinGrown(s: Fn)
    requires Ready(s) && NoDangling(s)
    ensures Grown(|s.blocks|, {|s.blocks|}, s, OpenJoin(s)) && Exact(OpenJoin(s), |s.blocks|, [])
  {
    var n := |s.blocks|;
    GrownSelf(s);
    GrownNew(n, {}, s, s, NewAfter(s));
    assert {} + {n} == {n};
    var s' := OpenJoin(s);
    assert forall p: nat, b: nat :: Edge(s', p, b) <==> Edge(s, p, b);
    hide Laid;
    assert |s'.blocks| == n + 1;
  }

  lemma CollectGrown(n: nat, skip: set<nat>, s0: Fn, s: Fn, end: nat, v: Operand)
    requires Grown(n, skip, s0, s) && end in skip && Collecting(s, end) && Exact(s, end, Incoming(s, end))
    ensures Grown(n, skip, s0, Collect(s, end, v)) && Pending(Collect(s, end, v), end)
    ensures forall b :: b in skip && b != end ==> Collect(s, end, v).blocks[b] == s.blocks[b]
  {
    var s' := Collect(s, end, v);
    assert Incoming(s', end)[..|Incoming(s, end)|] == Incoming(s, end);
    assert forall p: nat, b: nat :: Edge(s', p, b) <==> Edge(s, p, b);
    GrowsTrans(n, s0, s, s');
    ExactKept(s, s', end, Incoming(s, end));
    hide PhiOk, Exact, Laid;
    forall b | n <= b < |s'.blocks| && b !in skip ensures PhiOk(s', b) {
      PhiKept(s, s', b);
    }
  }

  // The block in work takes its edge to the join.
  lemma PendingTurn(n: nat, s: Fn, end: nat, t: Terminator, next: nat)
    requires Ready(s) && PhiHead(s, end) && Pending(s, end) && Targets(t, end)
    requires n <= next && Open(s, next) && next != s.cur && end != s.cur
    ensures var s' := Turn(n, s, t, next); PhiHead(s', end) && Incoming(s', end) == Incoming(s, end)
    ensures var s' := Turn(n, s, t, next); Exact(s', end, Incoming(s', end))
  {
    hide GrowsFrom, Later;
    var s' := Turn(n, s, t, next);
    var inc := Incoming(s, end);
    var last := |inc| - 1;
    TurnEdges(n, s, t, next);
    assert !Edge(s, s.cur, end);
    hide Edge, Targets;
    assert forall p: nat :: Edge(s', p, end) <==> Edge(s, p, end) || p == s.cur;
    assert forall j :: 0 <= j < last ==> inc[..last][j] == inc[j];
    forall p: nat | Edge(s', p, end) ensures exists j :: 0 <= j < |inc| && inc[j].1 == p {
      if p == s.cur {
        assert inc[last].1 == p;
      } else {
        var j :| 0 <= j < last && inc[..last][j].1 == p;
        assert inc[j].1 == p;
      }
    }
  }

  // ---------- every construct ----------

  lemma GrownNoDangling(n: nat, skip: set<nat>, s0: Fn, s: Fn)
    requires Grown(n, skip, s0, s)
    ensures Ready(s) && NoDangling(s)
  {
  }

  lemma {:induction false} EmitShape(gs: seq<Global>, limit: nat, s: Fn, e: Expr)
    requires Ready(s) && NoDangling(s) && Generates(gs, limit, e)
    ensures Grown(|s.blocks|, {}, s, Emit(gs, limit, s, e).0)
    decreases e, 3
  {
    var n := |s.blocks|;
    hide Grown, NoDangling, GrowsFrom, Build, EmitCmp, EmitArith, EmitIf, EmitLogicFirst, EmitIn, EmitLoad, OpenJoin;
    GrownSelf(s);
    match e
    case Lit(v) =>
    case Global(g) => LoadGrown(gs, s, g);
    case Arith(op, args) =>
      if Unit(op).Some? {
        ArithShape(gs, limit, s, s, op, Const(Unit(op).value), args);
      } else {
        EmitShape(gs, limit, s, args[0]);
        var r := Emit(gs, limit, s, args[0]);
        ArithShape(gs, limit, s, r.0, op, r.1, args[1..]);
      }
    case Cmp(p, x, y) => CmpShape(n, {}, gs, limit, s, s, e, p, x, y);
    case Logic(conj, args) => LogicFirstShape(gs, limit, s, conj, args);
    case Negate(x) =>
      EmitShape(gs, limit, s, x);
      var r := Emit(gs, limit, s, x);
      BuildGrown(n, {}, s, r.0, Not(r.1));
    case In(args) =>
      if |args| >= 2 {
        OpenJoinGrown(s);
        InShape(gs, limit, s, OpenJoin(s), Resolve(gs, limit, args[0]).value, n, args, 1);
      }
    case If(c, t, f) => IfShape(gs, limit, s, e);
  }

  lemma {:induction false} PieceShape(n: nat, skip: set<nat>, gs: seq<Global>, limit: nat, s0: Fn, s: Fn, e: Expr)
    requires Ready(s) && Grown(n, skip, s0, s) && Generates(gs, limit, e)
    ensures var s' := Emit(gs, limit, s, e).0;
            && Grown(n, skip, s0, s')
            && (forall b :: b in skip ==> s'.blocks[b] == s.blocks[b])
            && (forall p: nat, b: nat :: b < |s.blocks| ==> (Edge(s', p, b) <==> Edge(s, p, b)))
    decreases e, 4
  {
    hide Emit, Generates;
    GrownNoDangling(n, skip, s0, s);
    EmitShape(gs, limit, s, e);
    GrownBy(n, skip, s0, s, Emit(gs, limit, s, e).0);
  }

  // Two operands and their comparison.
  lemma {:induction false} CmpShape(n: nat, skip: set<nat>, gs: seq<Global>, limit: nat, s0: Fn, s: Fn, bound: Expr,
                                    p: Predicate, x: Expr, y: Expr)
    requires x < bound && y < bound
    requires Ready(s) && Grown(n, skip, s0, s) && Generates(gs, limit, Cmp(p, x, y))
    ensures var s' := Emit(gs, limit, s, Cmp(p, x, y)).0;
            && Grown(n, skip, s0, s')
            && (forall b :: b in skip ==> s'.blocks[b] == s.blocks[b])
            && (forall p: nat, b: nat :: b < |s.blocks| ==> (Edge(s', p, b) <==> Edge(s, p, b)))
    decreases bound, 0
  {
    var a := Emit(gs, limit, s, x);
    var b := Emit(gs, limit, a.0, y);
    var ty := Resolve(gs, limit, x).value;
    assert Emit(gs, limit, s, Cmp(p, x, y)) == EmitCmp(b.0, ty, p, a.1, b.1);
    hide Emit, Generates, Grown, EmitCmp, GrowsFrom, Edge;
    PieceShape(n, skip, gs, limit, s0, s, x);
    PieceShape(n, skip, gs, limit, s0, a.0, y);
    CmpGrown(n, skip, s0, b.0, ty, p, a.1, b.1);
    BlocksGrow(s, a.0);
  }

  lemma BlocksGrow(s: Fn, s': Fn)
    requires Grows(s, s')
    ensures |s.blocks| <= |s'.blocks|
  {
  }

  lemma {:induction false} ArithShape(gs: seq<Global>, limit: nat, s0: Fn, s: Fn, op: ArithOp, v: Operand,
                                      args: seq<Expr>)
    requires Ready(s) && Grown(|s0.blocks|, {}, s0, s)
    requires forall i :: 0 <= i < |args| ==> Generates(gs, limit, args[i])
    ensures Grown(|s0.blocks|, {}, s0, EmitArith(gs, limit, s, op, v, args).0)
    decreases args, 0
  {
    hide Grown, Emit, EmitOp, GrowsFrom, Generates;
    if args != [] {
      PieceShape(|s0.blocks|, {}, gs, limit, s0, s, args[0]);
      var r := Emit(gs, limit, s, args[0]);
      OpGrown(|s0.blocks|, {}, s0, r.0, op, v, r.1);
      var w := EmitOp(r.0, op, v, r.1);
      ArithShape(gs, limit, s0, w.0, op, w.1, args[1..]);
    }
  }

  // ---------- connectives and membership ----------

  // The join is open, and every value it has collected so far came with an edge.
  ghost predicate Settled(s0: Fn, s: Fn) {
    var end := |s0.blocks|;
    Grown(end, {end}, s0, s) && Collecting(s, end) && Exact(s, end, Incoming(s, end))
  }

  // The same, but for the last value, which came from the block in work.
  ghost predicate Waiting(s0: Fn, s: Fn) {
    var end := |s0.blocks|;
    Grown(end, {end}, s0, s) && Collecting(s, end) && Pending(s, end)
  }

  // A test leaves for the join or goes on in the fresh block next.
  lemma FreshTurn(s0: Fn, u: Fn, c: Operand, next: nat)
    requires var end := |s0.blocks|; Grown(end, {end, next}, s0, u) && Collecting(u, end) && Pending(u, end)
    requires |s0.blocks| < next && Open(u, next) && next != u.cur && u.blocks[next].instrs == []
    ensures var end := |s0.blocks|; Settled(s0, Turn(end, u, CondBr(c, end, next), next))
  {
    var end := |s0.blocks|;
    var t := CondBr(c, end, next);
    var s' := Turn(end, u, t, next);
    assert Collecting(s', end);
    hide Grown, PhiOk, Exact, Pending, GrowsFrom, Later;
    PendingTurn(end, u, end, t, next);
    EmptyPhiOk(s', next);
    GrownTurn(end, {end, next}, s0, u, t, next);
    assert {end, next} - {next} == {end};
  }

  lemma PendingKept(s: Fn, s': Fn, end: nat)
    requires PhiHead(s, end) && Pending(s, end) && end < |s'.blocks| && s'.blocks[end] == s.blocks[end] &&
             s'.cur == s.cur
    requires forall p: nat :: Edge(s', p, end) <==> Edge(s, p, end)
    ensures PhiHead(s', end) && Pending(s', end)
  {
    ExactKept(s, s', end, Incoming(s, end)[..|Incoming(s, end)| - 1]);
  }

  lemma TestShape(s0: Fn, s: Fn, conj: bool, v: Operand)
    requires Waiting(s0, s)
    ensures Settled(s0, LogicTest(s, conj, |s0.blocks|, v))
  {
    var end, next := |s0.blocks|, |s.blocks|;
    var s1 := NewAfter(s);
    var i := ICmp(if conj then Eq else Ne, v, FALSE);
    var test := Build(s1, i);
    assert forall p: nat, b: nat :: Edge(s1, p, b) <==> Edge(s, p, b);
    assert LogicTest(s, conj, end, v) == Turn(end, test.0, CondBr(test.1, end, next), next);
    assert {end} + {next} == {end, next};
    assert Grown(end, {end}, s0, s) && s.cur != end && end != 0 && Ready(s1);
    hide Grown, Exact, GrowsFrom, InsertAfter, Build, Edge, LogicTest, Laid, Collects;
    GrownNew(end, {end}, s0, s, s1);
    PendingKept(s, s1, end);
    BuildGrown(end, {end, next}, s0, s1, i);
    PendingKept(s1, test.0, end);
    assert Collecting(test.0, end);
    FreshTurn(s0, test.0, test.1, next);
  }

  lemma SettledClose(s0: Fn, s: Fn)
    requires Waiting(s0, s)
    ensures Grown(|s0.blocks|, {}, s0, CloseJoin(s, |s0.blocks|))
  {
    var end := |s0.blocks|;
    var s' := Turn(end, s, Br(end), end);
    PendingTurn(end, s, end, Br(end), end);
    assert PhiOk(s', end);
    hide Grown, PhiOk, Exact, Pending;
    GrownTurn(end, {end}, s0, s, Br(end), end);
    assert {end} - {end} == {};
  }

  // The next operand is compiled and combined.
  lemma SettledPiece(s0: Fn, s: Fn, s': Fn)
    requires Settled(s0, s) && Grown(|s.blocks|, {}, s, s') && Ready(s')
    ensures Settled(s0, s')
  {
    var end := |s0.blocks|;
    GrownBy(end, {end}, s0, s, s');
    ExactKept(s, s', end, Incoming(s, end));
  }

  lemma SettledNoDangling(s0: Fn, s: Fn)
    requires Settled(s0, s)
    ensures Ready(s) && NoDangling(s) && Collecting(s, |s0.blocks|)
  {
  }

  lemma StepShape(s0: Fn, s: Fn, conj: bool, v: Operand, rand: Operand)
    requires Settled(s0, s)
    ensures Waiting(s0, LogicStep(s, conj, |s0.blocks|, v, rand).0)
  {
    var end := |s0.blocks|;
    var i := Bin(if conj then And else Or, v, rand);
    var w := Build(s, i);
    BuildGrown(end, {end}, s0, s, i);
    ExactKept(s, w.0, end, Incoming(s, end));
    CollectGrown(end, {end}, s0, w.0, end, w.1);
  }

  lemma {:induction false} LogicShape(gs: seq<Global>, limit: nat, s0: Fn, s: Fn, conj: bool, v: Operand,
                                      args: seq<Expr>)
    requires Waiting(s0, s)
    requires forall i :: 0 <= i < |args| ==> Generates(gs, limit, args[i])
    ensures Grown(|s0.blocks|, {}, s0, EmitLogic(gs, limit, s, conj, |s0.blocks|, v, args))
    decreases args, 0
  {
    var end := |s0.blocks|;
    assert Collecting(s, end);
    hide Waiting, Settled, Grown, Emit, LogicTest, LogicStep, CloseJoin, Collecting, Generates, Joins, Collects,
      GrowsFrom, NoDangling;
    if args == [] {
      SettledClose(s0, s);
    } else {
      TestShape(s0, s, conj, v);
      var s1 := LogicTest(s, conj, end, v);
      SettledNoDangling(s0, s1);
      EmitShape(gs, limit, s1, args[0]);
      var r := Emit(gs, limit, s1, args[0]);
      SettledPiece(s0, s1, r.0);
      SettledNoDangling(s0, r.0);
      StepShape(s0, r.0, conj, v, r.1);
      var w := LogicStep(r.0, conj, end, v, r.1);
      LogicShape(gs, limit, s0, w.0, conj, w.1, args[1..]);
    }
  }

  lemma {:induction false} LogicFirstShape(gs: seq<Global>, limit: nat, s: Fn, conj: bool, args: seq<Expr>)
    requires Ready(s) && NoDangling(s) && args != []
    requires forall i :: 0 <= i < |args| ==> Generates(gs, limit, args[i])
    ensures Grown(|s.blocks|, {}, s, EmitLogicFirst(gs, limit, s, conj, args))
    decreases args, 1
  {
    hide Grown, Emit, OpenJoin, Collect, Generates, Joins, Collects, GrowsFrom, NoDangling, EmitLogic, Exact, Pending;
    var end := |s.blocks|;
    var s1 := OpenJoin(s);
    var r := Emit(gs, limit, s1, args[0]);
    OpenJoinGrown(s);
    assert Settled(s, s1);
    SettledNoDangling(s, s1);
    EmitShape(gs, limit, s1, args[0]);
    SettledPiece(s, s1, r.0);
    SettledNoDangling(s, r.0);
    var s2 := Collect(r.0, end, r.1);
    CollectGrown(end, {end}, s, r.0, end, r.1);
    LogicShape(gs, limit, s, s2, conj, r.1, args[1..]);
  }

  lemma InCmpShape(s0: Fn, s: Fn, ty: Type, va: Operand, vb: Operand)
    requires Settled(s0, s)
    ensures var c := EmitCmp(s, ty, Eq, va, vb); Ready(c.0) && Settled(s0, c.0)
  {
    var end := |s0.blocks|;
    var c := EmitCmp(s, ty, Eq, va, vb);
    hide EmitCmp, Laid;
    CmpGrown(end, {end}, s0, s, ty, Eq, va, vb);
    GrowsCollects(end, s, c.0);
    ExactKept(s, c.0, end, Incoming(s, end));
  }

  lemma InNewShape(s0: Fn, s: Fn, v: Operand)
    requires Settled(s0, s)
    ensures var end := |s0.blocks|;
            var s1 := NewBefore(s, end);
            && Collecting(s1, end) && Grown(end, {end, |s.blocks|}, s0, Collect(s1, end, v)) &&
               Pending(Collect(s1, end, v), end)
  {
    var end := |s0.blocks|;
    var s1 := NewBefore(s, end);
    GrowsCollects(end, s, s1);
    assert forall p: nat, b: nat :: Edge(s1, p, b) <==> Edge(s, p, b);
    ExactKept(s, s1, end, Incoming(s, end));
    assert {end} + {|s.blocks|} == {end, |s.blocks|};
    hide Grown, Exact, GrowsFrom, InsertBefore, Edge, Laid, Collects, Later;
    GrownNew(end, {end}, s0, s, s1);
    CollectGrown(end, {end, |s.blocks|}, s0, s1, end, v);
  }

  lemma InTestShape(s0: Fn, s: Fn, ty: Type, va: Operand, vb: Operand)
    requires Settled(s0, s)
    ensures Settled(s0, InTest(s, ty, |s0.blocks|, va, vb))
  {
    hide Grown, Exact, GrowsFrom, InsertBefore, EmitCmp, Edge, Laid, Collects, Later, Pending, Settled;
    var end := |s0.blocks|;
    SettledNoDangling(s0, s);
    var c := EmitCmp(s, ty, Eq, va, vb);
    InCmpShape(s0, s, ty, va, vb);
    InNewShape(s0, c.0, c.1);
    FreshTurn(s0, InCond(s, ty, end, va, vb).0, c.1, |c.0.blocks|);
  }

  lemma InCloseShape(s0: Fn, s: Fn)
    requires Settled(s0, s)
    ensures Grown(|s0.blocks|, {}, s0, CloseJoin(Collect(s, |s0.blocks|, FALSE), |s0.blocks|))
  {
    var end := |s0.blocks|;
    CollectGrown(end, {end}, s0, s, end, FALSE);
    SettledClose(s0, Collect(s, end, FALSE));
  }

  lemma {:induction false} InShape(gs: seq<Global>, limit: nat, s0: Fn, s: Fn, ty: Type, end: nat, args: seq<Expr>,
                                   k: nat)
    requires Settled(s0, s) && end == |s0.blocks| && 1 <= k <= |args|
    requires forall i :: 0 <= i < |args| ==> Generates(gs, limit, args[i])
    ensures Grown(end, {}, s0, EmitIn(gs, limit, s, ty, end, args, k))
    decreases args, |args| - k
  {
    hide Settled, Grown, Emit, InTest, CloseJoin, Collecting, Generates, Joins, Collects, GrowsFrom, NoDangling,
      Collect;
    SettledNoDangling(s0, s);
    if k == |args| {
      InCloseShape(s0, s);
    } else {
      var a := Emit(gs, limit, s, args[0]);
      EmitShape(gs, limit, s, args[0]);
      SettledPiece(s0, s, a.0);
      SettledNoDangling(s0, a.0);
      var b := Emit(gs, limit, a.0, args[k]);
      EmitShape(gs, limit, a.0, args[k]);
      SettledPiece(s0, a.0, b.0);
      SettledNoDangling(s0, b.0);
      InTestShape(s0, b.0, ty, a.1, b.1);
      var s1 := InTest(b.0, ty, end, a.1, b.1);
      SettledNoDangling(s0, s1);
      InShape(gs, limit, s0, s1, ty, end, args, k + 1);
    }
  }

  // ---------- the conditional ----------

  lemma IfBlocksGrown(s: Fn)
    requires Ready(s) && NoDangling(s)
    ensures var n := |s.blocks|; Grown(n, {n, n + 1, n + 2}, s, IfBlocks(s))
    ensures forall p: nat :: !Edge(IfBlocks(s), p, |s.blocks|)
  {
    hide Grown, Edge, InsertAfter, InsertBefore, Laid, GrowsFrom, NoDangling;
    var n := |s.blocks|;
    var s1 := NewAfter(s);
    var s2 := NewBefore(s1, n);
    var s3 := NewBefore(s2, n);
    NewEdges(s, s1);
    NewEdges(s1, s2);
    NewEdges(s2, s3);
    NothingEnters(s, n);
    GrownSelf(s);
    GrownNew(n, {}, s, s, s1);
    GrownNew(n, {} + {n}, s, s1, s2);
    GrownNew(n, {} + {n} + {n + 1}, s, s2, s3);
    assert {} + {n} + {n + 1} + {n + 2} == {n, n + 1, n + 2};
  }

  lemma NothingEnters(s: Fn, b: nat)
    requires NoDangling(s) && b >= |s.blocks|
    ensures forall p: nat :: !Edge(s, p, b)
  {
  }

  // Compiling a conditional: the blocks in skip are still empty, and preds lead to the block of the join.
  ghost predicate Stage(s0: Fn, s: Fn, skip: set<nat>, preds: set<nat>) {
    var n := |s0.blocks|;
    && Ready(s) && n < |s.blocks| && NoDangling(s) && Grown(n, skip, s0, s)
    && (forall p: nat :: Edge(s, p, n) <==> p in preds)
    && (forall b :: b in skip ==> n <= b && Open(s, b) && b != s.cur && s.blocks[b].instrs == [])
  }

  lemma {:induction false} StagePiece(gs: seq<Global>, limit: nat, s0: Fn, s: Fn, skip: set<nat>, preds: set<nat>,
                                      e: Expr)
    requires Stage(s0, s, skip, preds) && Generates(gs, limit, e)
    ensures Stage(s0, Emit(gs, limit, s, e).0, skip, preds)
    decreases e, 5
  {
    hide Emit, Grown, GrowsFrom, Edge, Generates, Ready, NoDangling;
    var s' := Emit(gs, limit, s, e).0;
    PieceShape(|s0.blocks|, skip, gs, limit, s0, s, e);
    BlocksGrow(s, s');
    GrownNoDangling(|s0.blocks|, skip, s0, s');
    GrownWaits(|s0.blocks|, skip, s0, s');
  }

  lemma GrownWaits(n: nat, skip: set<nat>, s0: Fn, s: Fn)
    requires Grown(n, skip, s0, s)
    ensures forall b :: b in skip ==> n <= b && Open(s, b) && b != s.cur
  {
  }

  // Turning to the still empty block next, which then has no phi.
  lemma StageTurn(s0: Fn, s: Fn, skip: set<nat>, preds: set<nat>, t: Terminator, next: nat)
    requires Stage(s0, s, skip, preds) && next in skip && BranchInto(t, skip)
    ensures Stage(s0, Turn(|s0.blocks|, s, t, next), skip - {next},
                  preds + if Targets(t, |s0.blocks|) then {s.cur} else {})
    ensures Turn(|s0.blocks|, s, t, next).blocks[next].instrs == []
  {
    var n := |s0.blocks|;
    var s' := Turn(n, s, t, next);
    EmptyPhiOk(s', next);
    hide Grown, GrowsFrom, Later, Edge;
    GrownTurn(n, skip, s0, s, t, next);
    GrownNoDangling(n, skip - {next}, s0, s');
    GrownWaits(n, skip - {next}, s0, s');
  }

  // The phi of two values that come from the two predecessors of the block in work.
  lemma GrownJoin(n: nat, s0: Fn, s: Fn, vt: Operand, bt: nat, vf: Operand, bf: nat)
    requires Ready(s) && Grown(n, {}, s0, s) && s.cur == n && s.blocks[n].instrs == [] && bt != bf
    requires forall p: nat :: Edge(s, p, n) <==> p == bt || p == bf
    ensures Grown(n, {}, s0, Effect(s, Phi([(vt, bt), (vf, bf)])))
  {
    var inc := [(vt, bt), (vf, bf)];
    var s' := Effect(s, Phi(inc));
    assert forall p: nat, b: nat :: Edge(s', p, b) <==> Edge(s, p, b);
    assert Exact(s', n, inc) by {
      assert inc[0].1 == bt && inc[1].1 == bf;
    }
    assert PhiOk(s', n);
    assert Edge(s, bt, n) && Edge(s, bf, n);
    hide PhiOk, Exact, Laid;
    forall b | n <= b < |s'.blocks| ensures PhiOk(s', b) {
      if b != n {
        PhiKept(s, s', b);
      }
    }
  }

  // A value that has landed where the builder stands enters the phi from that block.
  lemma StageJoin(s0: Fn, s: Fn, vt: Operand, bt: nat, vf: Operand, bf: nat)
    requires Stage(s0, s, {}, {bt} + {bf}) && bt != bf && s.cur == |s0.blocks| && s.blocks[s.cur].instrs == []
    requires IncomingBlock(vt, |s0.blocks| + 1) == bt && IncomingBlock(vf, |s0.blocks| + 2) == bf
    ensures Grown(|s0.blocks|, {}, s0, IfJoin(s, |s0.blocks|, vt, vf).0)
  {
    hide Grown, GrowsFrom, Edge;
    assert forall p: nat :: Edge(s, p, |s0.blocks|) <==> p == bt || p == bf;
    GrownJoin(|s0.blocks|, s0, s, vt, bt, vf, bf);
  }

  lemma StageStart(s: Fn)
    requires Ready(s) && NoDangling(s)
    ensures var n := |s.blocks|; Stage(s, IfBlocks(s), {n, n + 1, n + 2}, {})
  {
    var n := |s.blocks|;
    IfBlocksGrown(s);
    GrownWaits(n, {n, n + 1, n + 2}, s, IfBlocks(s));
    GrownNoDangling(n, {n, n + 1, n + 2}, s, IfBlocks(s));
    hide Grown, Edge, GrowsFrom;
  }

  lemma StageVacant(s0: Fn, s: Fn, skip: set<nat>, preds: set<nat>)
    requires Stage(s0, s, skip, preds)
    ensures Ready(s) && s.cur !in preds
    ensures forall b :: b in skip ==> |s0.blocks| <= b && Vacant(s, b)
  {
    assert !Edge(s, s.cur, |s0.blocks|);
  }

  lemma {:induction false} IfShape(gs: seq<Global>, limit: nat, s: Fn, e: Expr)
    requires Ready(s) && NoDangling(s) && e.If? && Generates(gs, limit, e)
    ensures Grown(|s.blocks|, {}, s, EmitIf(gs, limit, s, e).0)
    decreases e, 2
  {
    var n := |s.blocks|;
    assert Generates(gs, limit, e.c);
    hide Stage, Grown, GrowsFrom, Emit, EmitArms, Generates, NoDangling, IfBlocks, Later, Vacant;
    StageStart(s);
    var s1 := IfBlocks(s);
    StagePiece(gs, limit, s, s1, {n, n + 1, n + 2}, {}, e.c);
    var rc := Emit(gs, limit, s1, e.c);
    StageVacant(s, rc.0, {n, n + 1, n + 2}, {});
    ArmsShape(gs, limit, s, rc.0, rc.1, e);
  }

  lemma {:induction false} ArmsShape(gs: seq<Global>, limit: nat, s0: Fn, s: Fn, cond: Operand, e: Expr)
    requires var n := |s0.blocks|; Stage(s0, s, {n, n + 1, n + 2}, {})
    requires var n := |s0.blocks|; Ready(s) && Vacant(s, n) && Vacant(s, n + 1) && Vacant(s, n + 2)
    requires e.If? && Generates(gs, limit, e)
    ensures Grown(|s0.blocks|, {}, s0, EmitArms(gs, limit, s, |s0.blocks|, cond, e).0)
    decreases e, 1
  {
    var n := |s0.blocks|;
    assert Generates(gs, limit, e.t) && Generates(gs, limit, e.f);
    var t1 := CondBr(cond, n + 1, n + 2);
    var s1 := Turn(n, s, t1, n + 1);
    hide Stage, Grown, GrowsFrom, Emit, EmitElse, Generates, NoDangling, Later, Vacant, Ready, Open;
    StageTurn(s0, s, {n, n + 1, n + 2}, {}, t1, n + 1);
    assert {n, n + 1, n + 2} - {n + 1} == {n, n + 2};
    var none: set<nat> := {};
    assert !Targets(t1, n) && none + none == none;
    StageVacant(s0, s1, {n, n + 2}, {});
    StagePiece(gs, limit, s0, s1, {n, n + 2}, {}, e.t);
    ValueHere(gs, limit, s1, e.t);
    var rt := Emit(gs, limit, s1, e.t);
    StageVacant(s0, rt.0, {n, n + 2}, {});
    ElseShape(gs, limit, s0, rt.0, rt.1, e.f);
  }

  lemma {:induction false} ElseShape(gs: seq<Global>, limit: nat, s0: Fn, s: Fn, vt: Operand, f: Expr)
    requires var n := |s0.blocks|; Stage(s0, s, {n, n + 2}, {}) && IncomingBlock(vt, n + 1) == s.cur
    requires var n := |s0.blocks|; Ready(s) && Vacant(s, n) && Vacant(s, n + 2)
    requires Generates(gs, limit, f)
    ensures Grown(|s0.blocks|, {}, s0, EmitElse(gs, limit, s, |s0.blocks|, vt, f).0)
    decreases f, 6
  {
    var n := |s0.blocks|;
    var s1 := Turn(n, s, Br(n), n + 2);
    hide Stage, Grown, GrowsFrom, Emit, Generates, NoDangling, Later, Vacant, Ready, Open, IfJoin;
    StageTurn(s0, s, {n, n + 2}, {}, Br(n), n + 2);
    assert {n, n + 2} - {n + 2} == {n};
    var none: set<nat> := {};
    assert none + {s.cur} == {s.cur};
    StageVacant(s0, s1, {n}, {s.cur});
    StagePiece(gs, limit, s0, s1, {n}, {s.cur}, f);
    ValueHere(gs, limit, s1, f);
    var rf := Emit(gs, limit, s1, f);
    StageVacant(s0, rf.0, {n}, {s.cur});
    StageTurn(s0, rf.0, {n}, {s.cur}, Br(n), n);
    assert {n} - {n} == {};
    StageJoin(s0, Turn(n, rf.0, Br(n), n), vt, s.cur, rf.1, rf.0.cur);
  }
}
