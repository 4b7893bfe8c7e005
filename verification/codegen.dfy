/**
 What the code generator emits for an expression, as a function from one stage of the function under
 construction to the next and the operand that holds the expression's value.
 */
module CodeGen {
  import opened Basics
  import opened IR
  import opened Expressions
  import opened Building

  const FALSE: Operand := Const(B(false))
  const ZERO: Operand := Const(I(0))

  function EmitOp(s: Fn, op: ArithOp, v: Operand, rand: Operand): (r: (Fn, Operand))
    requires Ready(s)
    ensures Ready(r.0) && Grows(s, r.0) && r.0.cur == s.cur
  {
    match op
    case Plus => Build(s, Bin(Add, v, rand))
    case Minus => Build(s, Bin(Sub, v, rand))
    case Times => Build(s, Bin(Mul, v, rand))
    case Divide => EmitGuarded(s, SDiv, v, rand)
    case Modulo => EmitGuarded(s, SRem, v, rand)
    case Min => var c := Build(s, ICmp(Slt, v, rand)); Build(c.0, Select(c.1, v, rand))
    case Max => var c := Build(s, ICmp(Sgt, v, rand)); Build(c.0, Select(c.1, v, rand))
  }

  // The divisor is replaced by the largest integer when it is zero.
  function EmitGuarded(s: Fn, op: BinOp, v: Operand, rand: Operand): (r: (Fn, Operand))
    requires Ready(s)
    ensures Ready(r.0) && Grows(s, r.0) && r.0.cur == s.cur
  {
    var test := Build(s, ICmp(Eq, rand, ZERO));
    var d := Build(test.0, Select(test.1, Const(I(INT64_MAX)), rand));
    Build(d.0, Bin(op, v, d.1))
  }

  // Booleans are compared as 0 and 1.
  function EmitCmp(s: Fn, ty: Type, p: Predicate, va: Operand, vb: Operand): (r: (Fn, Operand))
    requires Ready(s)
    ensures Ready(r.0) && Grows(s, r.0) && r.0.cur == s.cur
  {
    if ty.TInt? then Build(s, ICmp(p, va, vb))
    else
      var a := Build(s, ZExt(va));
      var b := Build(a.0, ZExt(vb));
      Build(b.0, ICmp(p, a.1, b.1))
  }

  function EmitLoad(gs: seq<Global>, s: Fn, g: nat): (r: (Fn, Operand))
    requires Ready(s) && g < |gs|
    ensures Ready(r.0) && Grows(s, r.0)
  {
    if gs[g].Eager? then Append(s, Load(g))
    else
      var test := LoadTest(s, g);
      var s1 := LoadInit(test.0, |s.blocks|, test.1, g);
      GrowsTrans(|s.blocks|, s, test.0, s1);
      var q := Append(s1, Load(g));
      GrowsChainFrom(|s.blocks|, s, s1, q.0);
      q
  }

  function LoadBlocks(s: Fn): (r: Fn)
    requires Ready(s)
    ensures Ready(r) && Grows(s, r) && r.cur == s.cur && |r.blocks| == |s.blocks| + 2
    ensures Vacant(r, |s.blocks|) && Vacant(r, |s.blocks| + 1)
  {
    NewBefore(NewAfter(s), |s.blocks|)
  }

  // Makes the two blocks of a lazy load, numbered |s.blocks| (the load) and |s.blocks| + 1 (the call), and
  // tests the done flag.
  function LoadTest(s: Fn, g: nat): (r: (Fn, Operand))
    requires Ready(s)
    ensures Ready(r.0) && Grows(s, r.0) && r.0.cur == s.cur
    ensures Vacant(r.0, |s.blocks|) && Vacant(r.0, |s.blocks| + 1)
  {
    var s1 := LoadBlocks(s);
    var done := Append(s1, LoadDone(g));
    GrowsChain(s, s1, done.0);
    var test := Build(done.0, ICmp(Eq, done.1, FALSE));
    GrowsChain(s, done.0, test.0);
    test
  }

  // Calls the initialiser when the test says so and goes on in block n.
  function LoadInit(s: Fn, n: nat, test: Operand, g: nat): (r: Fn)
    requires Ready(s) && Vacant(s, n) && Vacant(s, n + 1)
    ensures Ready(r) && GrowsFrom(n, s, r) && Later(s, r) && r.cur == n && r.blocks[n].instrs == []
  {
    var s1 := Turn(n, s, CondBr(test, n + 1, n), n + 1);
    var s2 := Effect(s1, CallInit(g));
    GrowsChainFrom(n, s, s1, s2);
    GrowsLater(s1, s2); LaterTrans(s, s1, s2);
    var s3 := Turn(n, s2, Br(n), n);
    GrowsTrans(n, s, s2, s3); LaterTrans(s, s2, s3);
    s3
  }

  // The block a phi takes operand v from: its defining block, or the arm itself for a constant.
  function IncomingBlock(v: Operand, arm: nat): nat {
    if v.Const? then arm else v.block
  }

  // The test whether the value so far decides the result, behind which the next operand's block is made.
  function LogicCond(s: Fn, conj: bool, end: nat, v: Operand): (r: (Fn, Operand))
    requires Collecting(s, end)
    ensures Collecting(r.0, end) && Collects(end, s, r.0) && r.0.cur == s.cur
    ensures Vacant(r.0, |s.blocks|) && r.0.blocks[end] == s.blocks[end]
  {
    var s1 := NewAfter(s);
    GrowsCollects(end, s, s1);
    var test := Build(s1, ICmp(if conj then Eq else Ne, v, FALSE));
    GrowsCollects(end, s1, test.0);
    CollectsTrans(end, s, s1, test.0);
    test
  }

  // Tests the value so far and goes on in a new block unless it decides the result.
  function LogicTest(s: Fn, conj: bool, end: nat, v: Operand): (r: Fn)
    requires Collecting(s, end)
    ensures Collecting(r, end) && Collects(end, s, r) && r.cur == |s.blocks|
  {
    var test := LogicCond(s, conj, end, v);
    var s2 := Turn(end, test.0, CondBr(test.1, end, |s.blocks|), |s.blocks|);
    CollectsTrans(end, s, test.0, s2);
    s2
  }

  // Combines the next operand with the value so far and passes the outcome to the join.
  function LogicStep(s: Fn, conj: bool, end: nat, v: Operand, rand: Operand): (r: (Fn, Operand))
    requires Collecting(s, end)
    ensures Collecting(r.0, end) && Collects(end, s, r.0)
  {
    var w := Build(s, Bin(if conj then And else Or, v, rand));
    GrowsCollects(end, s, w.0);
    var s1 := Collect(w.0, end, w.1);
    CollectsTrans(end, s, w.0, s1);
    (s1, w.1)
  }

  // Compares, makes the block of the next comparison and passes the outcome to the join.
  function InCond(s: Fn, ty: Type, end: nat, va: Operand, vb: Operand): (r: (Fn, Operand))
    requires Collecting(s, end)
    ensures Collecting(r.0, end) && Collects(end, s, r.0) && r.0.cur == s.cur
    ensures var c := EmitCmp(s, ty, Eq, va, vb);
            r.1 == c.1 && r.0.cur == c.0.cur && |r.0.blocks| == |c.0.blocks| + 1 && Vacant(r.0, |c.0.blocks|)
  {
    var c := EmitCmp(s, ty, Eq, va, vb);
    GrowsCollects(end, s, c.0);
    var s1 := NewBefore(c.0, end);
    GrowsCollects(end, c.0, s1);
    CollectsTrans(end, s, c.0, s1);
    var s2 := Collect(s1, end, c.1);
    CollectsTrans(end, s, s1, s2);
    (s2, c.1)
  }

  // Leaves for the join when the comparison succeeded and goes on in the new block when it failed.
  function InTest(s: Fn, ty: Type, end: nat, va: Operand, vb: Operand): (r: Fn)
    requires Collecting(s, end)
    ensures Collecting(r, end) && Collects(end, s, r)
  {
    var c := InCond(s, ty, end, va, vb);
    var test := |c.0.blocks| - 1;
    var r := Turn(end, c.0, CondBr(c.1, end, test), test);
    CollectsTrans(end, s, c.0, r);
    r
  }

  // The three blocks of a conditional, numbered end, end + 1 (true arm), end + 2 (false arm).
  function IfBlocks(s: Fn): (r: Fn)
    requires Ready(s)
    ensures Ready(r) && Grows(s, r) && r.cur == s.cur && |r.blocks| == |s.blocks| + 3
    ensures forall b :: |s.blocks| <= b < |r.blocks| ==> Vacant(r, b)
  {
    NewBefore(NewBefore(NewAfter(s), |s.blocks|), |s.blocks|)
  }

  function IfJoin(s: Fn, end: nat, vt: Operand, vf: Operand): (r: (Fn, Operand))
    requires Ready(s)
    ensures Ready(r.0) && Grows(s, r.0) && r.0.cur == s.cur && r.1 == Reg(s.cur, |s.blocks[s.cur].instrs|)
  {
    Append(s, Phi([(vt, IncomingBlock(vt, end + 1)), (vf, IncomingBlock(vf, end + 2))]))
  }

  function Emit(gs: seq<Global>, limit: nat, s: Fn, e: Expr): (r: (Fn, Operand))
    requires Ready(s) && Generates(gs, limit, e)
    ensures Ready(r.0) && Grows(s, r.0)
    decreases e, 3
  {
    match e
    case Lit(v) => (s, Const(v))
    case Global(g) => EmitLoad(gs, s, g)
    case Arith(op, args) =>
      if Unit(op).Some? then EmitArith(gs, limit, s, op, Const(Unit(op).value), args)
      else
        var r := Emit(gs, limit, s, args[0]);
        var q := EmitArith(gs, limit, r.0, op, r.1, args[1..]);
        GrowsChain(s, r.0, q.0);
        q
    case Cmp(p, x, y) =>
      var a := Emit(gs, limit, s, x);
      var b := Emit(gs, limit, a.0, y);
      var c := EmitCmp(b.0, Resolve(gs, limit, x).value, p, a.1, b.1);
      GrowsChain(s, a.0, b.0); GrowsChain(s, b.0, c.0);
      c
    case Logic(conj, args) =>
      var end := |s.blocks|;
      (EmitLogicFirst(gs, limit, s, conj, args), Reg(end, 0))
    case Negate(x) =>
      var r := Emit(gs, limit, s, x);
      var q := Build(r.0, Not(r.1));
      GrowsChain(s, r.0, q.0);
      q
    case In(args) =>
      if |args| < 2 then (s, FALSE)
      else
        var end := |s.blocks|;
        var s1 := OpenJoin(s);
        var q := EmitIn(gs, limit, s1, Resolve(gs, limit, args[0]).value, end, args, 1);
        GrowsTrans(end, s, s1, q);
        (q, Reg(end, 0))
    case If(_, _, _) => EmitIf(gs, limit, s, e)
  }

  function EmitIf(gs: seq<Global>, limit: nat, s: Fn, e: Expr): (r: (Fn, Operand))
    requires Ready(s) && e.If? && Generates(gs, limit, e)
    ensures Ready(r.0) && Grows(s, r.0) && r.1 == Reg(|s.blocks|, 0) && r.0.cur == |s.blocks|
    decreases e, 2
  {
    var end := |s.blocks|;
    var s1 := IfBlocks(s);
    var rc := Emit(gs, limit, s1, e.c);
    GrowsChainFrom(end, s, s1, rc.0);
    var q := EmitArms(gs, limit, rc.0, end, rc.1, e);
    GrowsTrans(end, s, rc.0, q.0);
    q
  }

  // The two arms of a conditional whose blocks end, end + 1 and end + 2 are still empty.
  function EmitArms(gs: seq<Global>, limit: nat, s: Fn, end: nat, cond: Operand, e: Expr): (r: (Fn, Operand))
    requires Ready(s) && Vacant(s, end) && Vacant(s, end + 1) && Vacant(s, end + 2)
    requires e.If? && Generates(gs, limit, e)
    ensures Ready(r.0) && GrowsFrom(end, s, r.0) && Later(s, r.0) && r.1 == Reg(end, 0) && r.0.cur == end
    decreases e, 1
  {
    var s1 := Turn(end, s, CondBr(cond, end + 1, end + 2), end + 1);
    var rt := Emit(gs, limit, s1, e.t);
    GrowsChainFrom(end, s, s1, rt.0);
    GrowsLater(s1, rt.0); LaterTrans(s, s1, rt.0);
    var q := EmitElse(gs, limit, rt.0, end, rt.1, e.f);
    GrowsTrans(end, s, rt.0, q.0); LaterTrans(s, rt.0, q.0);
    q
  }

  function EmitElse(gs: seq<Global>, limit: nat, s: Fn, end: nat, vt: Operand, f: Expr): (r: (Fn, Operand))
    requires Ready(s) && Vacant(s, end) && Vacant(s, end + 2) && Generates(gs, limit, f)
    ensures Ready(r.0) && GrowsFrom(end, s, r.0) && Later(s, r.0) && r.1 == Reg(end, 0) && r.0.cur == end
    decreases f, 4
  {
    var s1 := Turn(end, s, Br(end), end + 2);
    var rf := Emit(gs, limit, s1, f);
    GrowsChainFrom(end, s, s1, rf.0);
    GrowsLater(s1, rf.0); LaterTrans(s, s1, rf.0);
    var s2 := Turn(end, rf.0, Br(end), end);
    GrowsTrans(end, s, rf.0, s2); LaterTrans(s, rf.0, s2);
    var q := IfJoin(s2, end, vt, rf.1);
    GrowsChainFrom(end, s, s2, q.0);
    GrowsLater(s2, q.0); LaterTrans(s, s2, q.0);
    q
  }

  function EmitArith(gs: seq<Global>, limit: nat, s: Fn, op: ArithOp, v: Operand, args: seq<Expr>): (r: (Fn, Operand))
    requires Ready(s) && forall i :: 0 <= i < |args| ==> Generates(gs, limit, args[i])
    ensures Ready(r.0) && Grows(s, r.0)
    decreases args, 0
  {
    if args == [] then (s, v)
    else
      var r := Emit(gs, limit, s, args[0]);
      var w := EmitOp(r.0, op, v, r.1);
      var q := EmitArith(gs, limit, w.0, op, w.1, args[1..]);
      GrowsChain(s, r.0, w.0); GrowsChain(s, w.0, q.0);
      q
  }

  function EmitLogicFirst(gs: seq<Global>, limit: nat, s: Fn, conj: bool, args: seq<Expr>): (r: Fn)
    requires Ready(s) && args != [] && forall i :: 0 <= i < |args| ==> Generates(gs, limit, args[i])
    ensures Ready(r) && Grows(s, r) && r.cur == |s.blocks| && PhiHead(r, |s.blocks|)
    decreases args, 1
  {
    var end := |s.blocks|;
    var s1 := OpenJoin(s);
    var r := Emit(gs, limit, s1, args[0]);
    GrowsCollects(end, s1, r.0); GrowsTrans(end, s, s1, r.0);
    var s2 := Collect(r.0, end, r.1);
    GrowsTrans(end, s, r.0, s2);
    var q := EmitLogic(gs, limit, s2, conj, end, r.1, args[1..]);
    GrowsTrans(end, s, s2, q);
    q
  }

  // v is the value so far, already passed to the phi of block end; the result stands at end.
  function EmitLogic(gs: seq<Global>, limit: nat, s: Fn, conj: bool, end: nat, v: Operand, args: seq<Expr>): (r: Fn)
    requires Collecting(s, end)
    requires forall i :: 0 <= i < |args| ==> Generates(gs, limit, args[i])
    ensures Ready(r) && Joins(end, s, r)
    decreases args, 0
  {
    if args == [] then CloseJoin(s, end)
    else
      var s1 := LogicTest(s, conj, end, v);
      var r := Emit(gs, limit, s1, args[0]);
      GrowsCollects(end, s1, r.0); CollectsTrans(end, s, s1, r.0);
      var w := LogicStep(r.0, conj, end, v, r.1);
      CollectsTrans(end, s, r.0, w.0);
      var q := EmitLogic(gs, limit, w.0, conj, end, w.1, args[1..]);
      CollectsJoins(end, s, w.0, q);
      q
  }

  // Compares args[0] with args[k], args[k+1], ...; every test passes its outcome to the phi of block end.
  function EmitIn(gs: seq<Global>, limit: nat, s: Fn, ty: Type, end: nat, args: seq<Expr>, k: nat): (r: Fn)
    requires Collecting(s, end) && 1 <= k <= |args|
    requires forall i :: 0 <= i < |args| ==> Generates(gs, limit, args[i])
    ensures Ready(r) && Joins(end, s, r)
    decreases args, |args| - k
  {
    if k == |args| then
      var s1 := Collect(s, end, FALSE);
      var q := CloseJoin(s1, end);
      CollectsJoins(end, s, s1, q);
      q
    else
      var a := Emit(gs, limit, s, args[0]);
      GrowsCollects(end, s, a.0);
      var b := Emit(gs, limit, a.0, args[k]);
      GrowsCollects(end, a.0, b.0); CollectsTrans(end, s, a.0, b.0);
      var s1 := InTest(b.0, ty, end, a.1, b.1);
      CollectsTrans(end, s, b.0, s1);
      var q := EmitIn(gs, limit, s1, ty, end, args, k + 1);
      CollectsJoins(end, s, s1, q);
      q
  }

  // ---------- what the constructs are made of ----------

  lemma LogicTestParts(s: Fn, conj: bool, end: nat, v: Operand)
    requires Collecting(s, end)
    ensures var i := ICmp(if conj then Eq else Ne, v, FALSE);
            var next := |s.blocks|;
            && Ready(NewAfter(s))
            && var test := Build(NewAfter(s), i);
            && Open(test.0, next) && test.0.cur == s.cur < next && end < next && Collecting(test.0, end)
            && LogicTest(s, conj, end, v) == Turn(end, test.0, CondBr(test.1, end, next), next)
  {
    hide GrowsFrom, Laid, Build, InsertAfter;
    var c := LogicCond(s, conj, end, v);
  }

  lemma InTestParts(s: Fn, ty: Type, end: nat, va: Operand, vb: Operand)
    requires Collecting(s, end)
    ensures var c := EmitCmp(s, ty, Eq, va, vb);
            var test := |c.0.blocks|;
            && Ready(c.0) && Ready(NewBefore(c.0, end)) && Collecting(NewBefore(c.0, end), end) && end < test
            && Grows(c.0, NewBefore(c.0, end)) && Collecting(c.0, end)
            && var s2 := Collect(NewBefore(c.0, end), end, c.1);
            && Ready(s2) && Open(s2, test) && s2.cur == c.0.cur < test
            && InTest(s, ty, end, va, vb) == Turn(end, s2, CondBr(c.1, end, test), test)
  {
    hide Laid, EmitCmp, InsertBefore;
    var c := InCond(s, ty, end, va, vb);
    var d := EmitCmp(s, ty, Eq, va, vb);
    GrowsCollects(end, s, d.0);
    GrowsCollects(end, d.0, NewBefore(d.0, end));
  }

  lemma IfGenerates(gs: seq<Global>, limit: nat, e: Expr)
    requires e.If?
    ensures Generates(gs, limit, e) ==>
              Generates(gs, limit, e.c) && Generates(gs, limit, e.t) && Generates(gs, limit, e.f)
    ensures Resolve(gs, limit, e).Some? ==>
              && Resolve(gs, limit, e.c).Some? && Resolve(gs, limit, e.t).Some? && Resolve(gs, limit, e.f).Some?
              && (Generates(gs, limit, e) <==>
                  Generates(gs, limit, e.c) && Generates(gs, limit, e.t) && Generates(gs, limit, e.f))
  {
  }

  lemma UnfoldIf(gs: seq<Global>, limit: nat, s: Fn, e: Expr)
    requires Ready(s) && e.If? && Generates(gs, limit, e)
    ensures Generates(gs, limit, e.c)
    ensures var end, rc := |s.blocks|, Emit(gs, limit, IfBlocks(s), e.c);
            && Vacant(rc.0, end) && Vacant(rc.0, end + 1) && Vacant(rc.0, end + 2)
            && EmitIf(gs, limit, s, e) == EmitArms(gs, limit, rc.0, end, rc.1, e)
  {
    hide EmitArms, IfBlocks, Emit, Grows, GrowsFrom, Vacant, Later, Generates, Ready, Resolve;
    IfGenerates(gs, limit, e);
    var end, s1 := |s.blocks|, IfBlocks(s);
    var rc := Emit(gs, limit, s1, e.c);
    VacantKept(s1, rc.0, end);
    VacantKept(s1, rc.0, end + 1);
    VacantKept(s1, rc.0, end + 2);
  }

  lemma TurnVacant(n: nat, s: Fn, t: Terminator, next: nat, b: nat)
    requires Ready(s) && n <= next && Vacant(s, next) && Vacant(s, b) && b != next
    ensures Vacant(Turn(n, s, t, next), b) && (Laid(s) ==> Laid(Turn(n, s, t, next)))
  {
  }

  lemma UnfoldArms(gs: seq<Global>, limit: nat, s: Fn, end: nat, cond: Operand, e: Expr)
    requires Ready(s) && Vacant(s, end) && Vacant(s, end + 1) && Vacant(s, end + 2)
    requires e.If? && Generates(gs, limit, e)
    ensures Generates(gs, limit, e.t) && Generates(gs, limit, e.f)
    ensures var s1 := Turn(end, s, CondBr(cond, end + 1, end + 2), end + 1);
            var rt := Emit(gs, limit, s1, e.t);
            && Vacant(rt.0, end) && Vacant(rt.0, end + 2) && Later(s, s1) && Later(s1, rt.0)
            && EmitArms(gs, limit, s, end, cond, e) == EmitElse(gs, limit, rt.0, end, rt.1, e.f)
  {
    hide Emit, EmitElse, Laid, GrowsFrom, Later, Generates, Resolve;
    IfGenerates(gs, limit, e);
    TurnVacant(end, s, CondBr(cond, end + 1, end + 2), end + 1, end);
    TurnVacant(end, s, CondBr(cond, end + 1, end + 2), end + 1, end + 2);
    var s1 := Turn(end, s, CondBr(cond, end + 1, end + 2), end + 1);
    var rt := Emit(gs, limit, s1, e.t);
    VacantKept(s1, rt.0, end);
    VacantKept(s1, rt.0, end + 2);
    GrowsLater(s1, rt.0);
  }

  lemma UnfoldElse(gs: seq<Global>, limit: nat, s: Fn, end: nat, vt: Operand, e: Expr)
    requires Ready(s) && Vacant(s, end) && Vacant(s, end + 2) && Generates(gs, limit, e)
    ensures var s1 := Turn(end, s, Br(end), end + 2);
            var rf := Emit(gs, limit, s1, e);
            var q := EmitElse(gs, limit, s, end, vt, e);
            && Later(s1, rf.0) && Later(rf.0, q.0) && Later(s, s1) && Grows(s1, rf.0)
            && Vacant(rf.0, end) && rf.0.cur != s.cur
            && q == IfJoin(Turn(end, rf.0, Br(end), end), end, vt, rf.1)
  {
    var s1 := Turn(end, s, Br(end), end + 2);
    var rf := Emit(gs, limit, s1, e);
    hide Emit, Generates, Laid;
    VacantKept(s1, rf.0, end);
    GrowsLater(s1, rf.0);
    var s2 := Turn(end, rf.0, Br(end), end);
    var q := IfJoin(s2, end, vt, rf.1);
    GrowsLater(s2, q.0);
    LaterTrans(rf.0, s2, q.0);
  }

  // ---------- whole functions ----------

  const FRESH: Fn := Fn([Block([], None)], [0], 0)

  lemma FreshLaid()
    ensures Ready(FRESH) && Laid(FRESH)
  {
    assert multiset([0 as nat]) == multiset{0 as nat};
  }

  function Finish(s: Fn, t: Terminator): Fn
    requires Ready(s)
  {
    Seal(s, t, s.cur)
  }

  // A function that returns the value of e.
  function CompileBody(gs: seq<Global>, e: Expr): Fn
    requires Generates(gs, |gs|, e)
  {
    var r := Emit(gs, |gs|, FRESH, e);
    Finish(r.0, Ret(r.1))
  }

  // The initialiser of lazy global g: stores the value of its definition and sets its done flag.
  function CompileInit(gs: seq<Global>, g: nat): Fn
    requires g < |gs| && gs[g].Lazy? && Generates(gs, g, gs[g].def)
  {
    var r := Emit(gs, g, FRESH, gs[g].def);
    Finish(Effect(Effect(r.0, Store(g, r.1)), StoreDone(g)), RetVoid)
  }

  // The initialisers of all lazy globals are in the program.
  ghost predicate Linked(p: Program, gs: seq<Global>)
    requires Declared(gs)
  {
    forall g :: 0 <= g < |gs| && gs[g].Lazy? ==> g in p.inits && p.inits[g] == CompileInit(gs, g)
  }
}
