/**
 Compiler correctness: for every expression the generator accepts, running the emitted blocks gives what
 direct evaluation gives.
 */
module Correctness {
  import opened Basics
  import opened IR
  import opened Expressions
  import opened Building
  import opened CodeGen
  import opened Typing
  import opened Simulation
  import opened Ssa

  ghost predicate Setting(p: Program, gs: seq<Global>, limit: nat, mem: Memory) {
    Declared(gs) && Linked(p, gs) && limit <= |gs| && MemTyped(gs, mem)
  }

  lemma {:induction false} SimExpr(p: Program, gs: seq<Global>, limit: nat, s: Fn, e: Expr, f: Frame, rest: Stack,
                                   mem: Memory)
    returns (n: nat, f': Frame)
    requires Setting(p, gs, limit, mem) && Generates(gs, limit, e)
    requires At(s, f) && Installed(p, f.fn, Emit(gs, limit, s, e).0)
    ensures Gives(p, n, Emit(gs, limit, s, e).0, Emit(gs, limit, s, e).1, f, f', rest, mem, Eval(gs, limit, e, mem))
    decreases limit, e, 4
  {
    hide At, Lands, Gives, Keeps, Installed, GrowsFrom, Build, EmitArith, EmitIf, EmitLogicFirst, EmitIn, EmitLoad,
      EmitCmp;
    hide EvalArith, EvalLogic, EvalIn, MemTyped;
    match e
    case Lit(v) =>
      n, f' := 0, f;
      Nothing(p, s, e.v, f, rest, mem);
    case Global(g) => n, f' := SimLoad(p, gs, limit, s, g, f, rest, mem);
    case Arith(op, args) =>
      if Unit(op).Some? {
        n, f' := SimArith(p, gs, limit, s, op, Const(Unit(op).value), Unit(op).value.n, args, f, rest, mem);
      } else {
        n, f' := SimArithFirst(p, gs, limit, s, op, args, f, rest, mem);
      }
    case Cmp(q, x, y) => n, f' := SimComparison(p, gs, limit, s, e, q, x, y, f, rest, mem);
    case Logic(conj, args) => n, f' := SimLogicFirst(p, gs, limit, s, conj, args, f, rest, mem);
    case Negate(x) => n, f' := SimNegate(p, gs, limit, s, x, f, rest, mem);
    case In(args) =>
      if |args| < 2 {
        n, f' := 0, f;
        Nothing(p, s, B(false), f, rest, mem);
      } else {
        n, f' := SimInFirst(p, gs, limit, s, args, f, rest, mem);
      }
    case If(_, _, _) => n, f' := SimIf(p, gs, limit, s, e, f, rest, mem);
  }

  lemma TypedNext(p: Program, gs: seq<Global>, limit: nat, e: Expr, mem: Memory)
    requires Setting(p, gs, limit, mem) && Generates(gs, limit, e) && Eval(gs, limit, e, mem).Some?
    ensures Setting(p, gs, limit, Eval(gs, limit, e, mem).value.1)
    ensures Resolve(gs, limit, e) == Some(TypeOf(Eval(gs, limit, e, mem).value.0))
    ensures Resolve(gs, limit, e) == Some(TInt) ==> Eval(gs, limit, e, mem).value.0.I?
    ensures Resolve(gs, limit, e) == Some(TBool) ==> Eval(gs, limit, e, mem).value.0.B?
  {
    ResolveSound(gs, limit, e, mem);
  }

  // A constant needs no code.
  lemma Nothing(p: Program, s: Fn, v: Value, f: Frame, rest: Stack, mem: Memory)
    requires At(s, f)
    ensures Gives(p, 0, s, Const(v), f, f, rest, mem, Some((v, mem)))
  {
  }

  lemma NotValue(o: Operand, regs: Regs, x: Value, mem: Memory)
    requires OperandValue(o, regs) == Some(x)
    ensures IsPure(Not(o))
    ensures With(PureValue(Not(o), regs), mem) == if x.B? then Some((B(!x.b), mem)) else None
  {
  }

  lemma UnfoldNegate(gs: seq<Global>, limit: nat, s: Fn, x: Expr, mem: Memory)
    requires Ready(s) && Generates(gs, limit, Negate(x))
    ensures var r := Emit(gs, limit, s, x);
            Emit(gs, limit, s, Negate(x)) == Build(r.0, Not(r.1))
    ensures var v := Eval(gs, limit, x, mem);
            Eval(gs, limit, Negate(x), mem) ==
            if v.Some? && v.value.0.B? then Some((B(!v.value.0.b), v.value.1)) else None
  {
  }

  lemma {:induction false} SimNegate(p: Program, gs: seq<Global>, limit: nat, s: Fn, x: Expr, f: Frame, rest: Stack,
                                     mem: Memory)
    returns (n: nat, f': Frame)
    requires Setting(p, gs, limit, mem) && Generates(gs, limit, Negate(x))
    requires At(s, f) && Installed(p, f.fn, Emit(gs, limit, s, Negate(x)).0)
    ensures var e := Negate(x);
            Gives(p, n, Emit(gs, limit, s, e).0, Emit(gs, limit, s, e).1, f, f', rest, mem, Eval(gs, limit, e, mem))
    decreases limit, x, 5
  {
    var r := Emit(gs, limit, s, x);
    var q := Build(r.0, Not(r.1));
    var v := Eval(gs, limit, x, mem);
    var w := if v.Some? && v.value.0.B? then Some((B(!v.value.0.b), v.value.1)) else None;
    hide *;
    assert Emit(gs, limit, s, Negate(x)) == q &&
           Eval(gs, limit, Negate(x), mem) == w by { UnfoldNegate(gs, limit, s, x, mem); }
    Earlier(p, f.fn, r.0, q.0);
    n, f' := SimExpr(p, gs, limit, s, x, f, rest, mem);
    if v.Some? {
      var f1 := f';
      Landed(p, n, r.0, r.1, f, f1, rest, mem, v.value.0, v.value.1);
      NotValue(r.1, f1.regs, v.value.0, v.value.1);
      n, f' := SimNext(p, n, r.0, r.1, Not(r.1), f, f1, rest, mem, v.value.0, v.value.1);
    } else {
      StuckAnywhere(p, n, r.0, r.1, q.0, q.1, f, f', rest, mem);
    }
  }

  // ---------- comparison ----------

  // What the code so far has produced, followed by code whose operand is o2.
  lemma Chain(p: Program, n1: nat, n2: nat, s1: Fn, o1: Operand, s2: Fn, o2: Operand,
              f: Frame, f1: Frame, f2: Frame, rest: Stack, mem: Memory, x: Value, m1: Memory,
              r: Option<(Value, Memory)>)
    returns (n: nat)
    requires Gives(p, n1, s1, o1, f, f1, rest, mem, Some((x, m1)))
    requires Gives(p, n2, s2, o2, f1, f2, rest, m1, r)
    ensures Gives(p, n, s2, o2, f, f2, rest, mem, r)
  {
    Bind(p, n1, n2, s1, o1, s2, o2, f, f1, f2, rest, mem, x, m1, r);
    n := n1 + n2;
  }

  lemma UnfoldCmp(gs: seq<Global>, limit: nat, s: Fn, q: Predicate, x: Expr, y: Expr, mem: Memory)
    requires Ready(s) && Generates(gs, limit, Cmp(q, x, y))
    ensures Generates(gs, limit, x) && Generates(gs, limit, y)
    ensures Resolve(gs, limit, x).Some? && Resolve(gs, limit, y) == Resolve(gs, limit, x)
    ensures var a := Emit(gs, limit, s, x);
            var b := Emit(gs, limit, a.0, y);
            Emit(gs, limit, s, Cmp(q, x, y)) == EmitCmp(b.0, Resolve(gs, limit, x).value, q, a.1, b.1)
    ensures var rx := Eval(gs, limit, x, mem);
            var ry := if rx.Some? then Eval(gs, limit, y, rx.value.1) else None;
            Eval(gs, limit, Cmp(q, x, y), mem) == if ry.None? then None else CmpResult(q, rx.value.0, ry.value)
  {
    hide GrowsFrom, EmitCmp, CmpResult;
  }

  lemma {:induction false} SimComparison(p: Program, gs: seq<Global>, limit: nat, s: Fn, bound: Expr, q: Predicate,
                                         x: Expr, y: Expr,
                                         f: Frame, rest: Stack, mem: Memory)
    returns (n: nat, f': Frame)
    requires x < bound && y < bound
    requires Setting(p, gs, limit, mem) && Generates(gs, limit, Cmp(q, x, y))
    requires At(s, f) && Installed(p, f.fn, Emit(gs, limit, s, Cmp(q, x, y)).0)
    ensures var e := Cmp(q, x, y);
            Gives(p, n, Emit(gs, limit, s, e).0, Emit(gs, limit, s, e).1, f, f', rest, mem, Eval(gs, limit, e, mem))
    decreases limit, bound, 0
  {
    hide Lands, Gives, Keeps, Installed, GrowsFrom, Emit, Eval, Resolve, Generates, EmitCmp, CmpResult, MemTyped;
    AtReady(s, f);
    UnfoldCmp(gs, limit, s, q, x, y, mem);
    hide At;
    var e := Cmp(q, x, y);
    var a := Emit(gs, limit, s, x);
    var b := Emit(gs, limit, a.0, y);
    var ty := Resolve(gs, limit, x).value;
    var c := EmitCmp(b.0, ty, q, a.1, b.1);
    var rx := Eval(gs, limit, x, mem);
    var ry := if rx.Some? then Eval(gs, limit, y, rx.value.1) else None;
    Earlier(p, f.fn, b.0, c.0);
    Earlier(p, f.fn, a.0, b.0);
    n, f' := SimExpr(p, gs, limit, s, x, f, rest, mem);
    if rx.Some? {
      var (vx, m1) := rx.value;
      ResolveSound(gs, limit, x, mem);
      var n1, f1 := n, f';
      Landed(p, n1, a.0, a.1, f, f1, rest, mem, vx, m1);
      var n2, f2 := SimExpr(p, gs, limit, a.0, y, f1, rest, m1);
      n := Chain(p, n1, n2, a.0, a.1, b.0, b.1, f, f1, f2, rest, mem, vx, m1, ry);
      f' := f2;
      if ry.Some? {
        var (vy, m2) := ry.value;
        ResolveSound(gs, limit, y, m1);
        Landed(p, n2, b.0, b.1, f1, f2, rest, m1, vy, m2);
        Kept(a.1, f1.regs, f2.regs);
        var n3, f3 := SimCmp(p, b.0, ty, q, a.1, b.1, f2, rest, m2, vx, vy);
        n := Chain(p, n, n3, b.0, b.1, c.0, c.1, f, f2, f3, rest, mem, vy, m2, CmpResult(q, vx, (vy, m2)));
        f' := f3;
      } else {
        StuckAnywhere(p, n, b.0, b.1, c.0, c.1, f, f', rest, mem);
      }
    } else {
      StuckAnywhere(p, n, a.0, a.1, c.0, c.1, f, f', rest, mem);
    }
  }

  lemma StuckAnywhere(p: Program, n: nat, s: Fn, o: Operand, s': Fn, o': Operand, f: Frame, f': Frame, rest: Stack,
                      mem: Memory)
    requires Gives(p, n, s, o, f, f', rest, mem, None)
    ensures Gives(p, n, s', o', f, f', rest, mem, None)
  {
  }

  // ---------- arithmetic ----------

  ghost predicate IntArgs(gs: seq<Global>, limit: nat, args: seq<Expr>) {
    forall i :: 0 <= i < |args| ==> Generates(gs, limit, args[i]) && Resolve(gs, limit, args[i]) == Some(TInt)
  }

  lemma UnfoldArithFirst(gs: seq<Global>, limit: nat, s: Fn, op: ArithOp, args: seq<Expr>, mem: Memory)
    requires Ready(s) && Generates(gs, limit, Arith(op, args)) && Unit(op).None?
    ensures args != [] && Generates(gs, limit, args[0]) && Resolve(gs, limit, args[0]) == Some(TInt)
    ensures IntArgs(gs, limit, args) && IntArgs(gs, limit, args[1..])
    ensures forall i :: 0 <= i < |args[1..]| ==> Generates(gs, limit, args[1..][i])
    ensures var r := Emit(gs, limit, s, args[0]);
            Emit(gs, limit, s, Arith(op, args)) == EmitArith(gs, limit, r.0, op, r.1, args[1..])
    ensures var v := Eval(gs, limit, args[0], mem);
            Eval(gs, limit, Arith(op, args), mem)
            == if v.Some? then EvalArith(gs, limit, op, v.value.0, args[1..], v.value.1) else None
  {
    hide EmitArith, EvalArith, GrowsFrom;
  }

  lemma {:induction false} SimArithFirst(p: Program, gs: seq<Global>, limit: nat, s: Fn, op: ArithOp, args: seq<Expr>,
                                         f: Frame, rest: Stack, mem: Memory)
    returns (n: nat, f': Frame)
    requires Setting(p, gs, limit, mem) && Generates(gs, limit, Arith(op, args)) && Unit(op).None?
    requires At(s, f) && Installed(p, f.fn, Emit(gs, limit, s, Arith(op, args)).0)
    ensures var e := Arith(op, args);
            Gives(p, n, Emit(gs, limit, s, e).0, Emit(gs, limit, s, e).1, f, f', rest, mem, Eval(gs, limit, e, mem))
    decreases limit, args, 2
  {
    hide At, Lands, Gives, Keeps, Installed, GrowsFrom, Emit, EmitArith, Eval, EvalArith, Resolve, IntArgs,
      Generates, MemTyped;
    var e := Arith(op, args);
    AtReady(s, f);
    UnfoldArithFirst(gs, limit, s, op, args, mem);
    var r := Emit(gs, limit, s, args[0]);
    var q := EmitArith(gs, limit, r.0, op, r.1, args[1..]);
    var v := Eval(gs, limit, args[0], mem);
    var w := if v.Some? then EvalArith(gs, limit, op, v.value.0, args[1..], v.value.1) else None;
    Earlier(p, f.fn, r.0, q.0);
    n, f' := SimExpr(p, gs, limit, s, args[0], f, rest, mem);
    if v.Some? {
      var (x, m1) := v.value;
      ResolveSound(gs, limit, args[0], mem);
      var n1, f1 := n, f';
      Landed(p, n1, r.0, r.1, f, f1, rest, mem, x, m1);
      var n2, f2 := SimArith(p, gs, limit, r.0, op, r.1, x.n, args[1..], f1, rest, m1);
      n := Chain(p, n1, n2, r.0, r.1, q.0, q.1, f, f1, f2, rest, mem, x, m1, w);
      f' := f2;
    } else {
      StuckAnywhere(p, n, r.0, r.1, q.0, q.1, f, f', rest, mem);
    }
  }

  lemma {:induction false} SimArith(p: Program, gs: seq<Global>, limit: nat, s: Fn, op: ArithOp, v: Operand,
                                    x: int64, args: seq<Expr>,
                                    f: Frame, rest: Stack, mem: Memory)
    returns (n: nat, f': Frame)
    requires Setting(p, gs, limit, mem)
    requires IntArgs(gs, limit, args)
    requires At(s, f) && OperandValue(v, f.regs) == Some(I(x)) &&
             Installed(p, f.fn, EmitArith(gs, limit, s, op, v, args).0)
    ensures var r := EmitArith(gs, limit, s, op, v, args);
            Gives(p, n, r.0, r.1, f, f', rest, mem, EvalArith(gs, limit, op, I(x), args, mem))
    decreases limit, args, 1
  {
    if args == [] {
      n, f' := 0, f;
    } else {
      n, f' := SimArithMore(p, gs, limit, s, op, v, x, args, f, rest, mem);
    }
  }

  lemma UnfoldArith(gs: seq<Global>, limit: nat, s: Fn, op: ArithOp, v: Operand, x: int64, args: seq<Expr>, mem: Memory)
    requires Ready(s) && IntArgs(gs, limit, args) && args != []
    ensures Generates(gs, limit, args[0]) && Resolve(gs, limit, args[0]) == Some(TInt) && IntArgs(gs, limit, args[1..])
    ensures forall i :: 0 <= i < |args[1..]| ==> Generates(gs, limit, args[1..][i])
    ensures var r := Emit(gs, limit, s, args[0]);
            var w := EmitOp(r.0, op, v, r.1);
            EmitArith(gs, limit, s, op, v, args) == EmitArith(gs, limit, w.0, op, w.1, args[1..])
    ensures var y := Eval(gs, limit, args[0], mem);
            var z := if y.Some? then ArithValue(op, I(x), y.value.0) else None;
            EvalArith(gs, limit, op, I(x), args, mem) ==
            if z.Some? then EvalArith(gs, limit, op, z.value, args[1..], y.value.1) else None
  {
    hide Grows, EmitOp, ArithValue;
  }

  lemma ArithIsInt(op: ArithOp, x: int64, y: int64, mem: Memory)
    ensures ArithValue(op, I(x), I(y)).Some? ==> ArithValue(op, I(x), I(y)).value.I?
    ensures With(ArithValue(op, I(x), I(y)), mem) ==
            if ArithValue(op, I(x), I(y)).Some? then Some((ArithValue(op, I(x), I(y)).value, mem)) else None
  {
  }

  lemma {:induction false} SimArithMore(p: Program, gs: seq<Global>, limit: nat, s: Fn, op: ArithOp, v: Operand,
                                        x: int64, args: seq<Expr>,
                                        f: Frame, rest: Stack, mem: Memory)
    returns (n: nat, f': Frame)
    requires Setting(p, gs, limit, mem) && args != []
    requires IntArgs(gs, limit, args)
    requires At(s, f) && OperandValue(v, f.regs) == Some(I(x)) &&
             Installed(p, f.fn, EmitArith(gs, limit, s, op, v, args).0)
    ensures var r := EmitArith(gs, limit, s, op, v, args);
            Gives(p, n, r.0, r.1, f, f', rest, mem, EvalArith(gs, limit, op, I(x), args, mem))
    decreases limit, args, 0
  {
    hide *;
    AtReady(s, f);
    UnfoldArith(gs, limit, s, op, v, x, args, mem);
    var r := Emit(gs, limit, s, args[0]);
    var w := EmitOp(r.0, op, v, r.1);
    var q := EmitArith(gs, limit, w.0, op, w.1, args[1..]);
    var y := Eval(gs, limit, args[0], mem);
    var z := if y.Some? then ArithValue(op, I(x), y.value.0) else None;
    var t := if z.Some? then EvalArith(gs, limit, op, z.value, args[1..], y.value.1) else None;
    Earlier(p, f.fn, w.0, q.0);
    Earlier(p, f.fn, r.0, w.0);
    n, f' := SimExpr(p, gs, limit, s, args[0], f, rest, mem);
    if y.Some? {
      var (vy, m1) := y.value;
      TypedNext(p, gs, limit, args[0], mem);
      assert vy.I?;
      var n1, f1 := n, f';
      Landed(p, n1, r.0, r.1, f, f1, rest, mem, vy, m1);
      Kept(v, f.regs, f1.regs);
      var n2, f2 := SimOp(p, r.0, op, v, r.1, f1, rest, m1, x, vy.n);
      n := Chain(p, n1, n2, r.0, r.1, w.0, w.1, f, f1, f2, rest, mem, vy, m1, With(z, m1));
      f' := f2;
      ArithIsInt(op, x, vy.n, m1);
      if z.Some? {
        Landed(p, n, w.0, w.1, f, f2, rest, mem, z.value, m1);
        var n3, f3 := SimArith(p, gs, limit, w.0, op, w.1, z.value.n, args[1..], f2, rest, m1);
        n := Chain(p, n, n3, w.0, w.1, q.0, q.1, f, f2, f3, rest, mem, z.value, m1, t);
        f' := f3;
      } else {
        StuckAnywhere(p, n, w.0, w.1, q.0, q.1, f, f', rest, mem);
      }
    } else {
      StuckAnywhere(p, n, r.0, r.1, q.0, q.1, f, f', rest, mem);
    }
  }

  // ---------- conditional ----------

  // A frame stands at a stage also when blocks were added behind it.
  lemma AtNew(s: Fn, s': Fn, f: Frame)
    requires At(s, f) && Later(s, s') && Ready(s') && s'.cur == s.cur &&
             |s'.blocks[s.cur].instrs| == |s.blocks[s.cur].instrs|
    ensures At(s', f)
  {
  }

  // Going to the empty block in which stage s' stands.
  lemma AtGoto(s: Fn, s': Fn, f: Frame, b: nat)
    requires At(s, f) && Later(s, s') && Ready(s') && s'.cur == b && s'.blocks[b].instrs == [] &&
             s'.blocks[s.cur].term.Some?
    ensures At(s', Goto(f, b))
  {
  }

  lemma AtReady(s: Fn, f: Frame)
    requires At(s, f)
    ensures Ready(s)
  {
  }

  lemma IfBlocksAt(s: Fn, f: Frame)
    requires At(s, f)
    ensures At(IfBlocks(s), f)
  {
    AtNew(s, IfBlocks(s), f);
  }

  function PickArm(gs: seq<Global>, limit: nat, e: Expr, x: Value, mem: Memory): Option<(Value, Memory)>
    requires e.If?
  {
    if !x.B? then None else if x.b then Eval(gs, limit, e.t, mem) else Eval(gs, limit, e.f, mem)
  }

  lemma UnfoldIfEval(gs: seq<Global>, limit: nat, s: Fn, e: Expr, mem: Memory)
    requires Ready(s) && e.If? && Generates(gs, limit, e)
    ensures Emit(gs, limit, s, e) == EmitIf(gs, limit, s, e)
    ensures Generates(gs, limit, e.c) && Generates(gs, limit, e.t) && Generates(gs, limit, e.f)
    ensures var r := Eval(gs, limit, e.c, mem);
            Eval(gs, limit, e, mem) == if r.None? then None else PickArm(gs, limit, e, r.value.0, r.value.1)
  {
    hide EmitIf, Grows;
  }

  lemma {:induction false} SimIf(p: Program, gs: seq<Global>, limit: nat, s: Fn, e: Expr, f: Frame, rest: Stack,
                                 mem: Memory)
    returns (n: nat, f': Frame)
    requires Setting(p, gs, limit, mem) && e.If? && Generates(gs, limit, e)
    requires At(s, f) && Installed(p, f.fn, Emit(gs, limit, s, e).0)
    ensures Gives(p, n, Emit(gs, limit, s, e).0, Emit(gs, limit, s, e).1, f, f', rest, mem, Eval(gs, limit, e, mem))
    decreases limit, e, 1
  {
    hide *;
    AtReady(s, f);
    UnfoldIfEval(gs, limit, s, e, mem);
    UnfoldIf(gs, limit, s, e);
    var end := |s.blocks|;
    var s1 := IfBlocks(s);
    var v := Eval(gs, limit, e.c, mem);
    var rc := Emit(gs, limit, s1, e.c);
    var q := EmitArms(gs, limit, rc.0, end, rc.1, e);
    IfBlocksAt(s, f);
    EarlierLater(p, f.fn, rc.0, q.0);
    n, f' := SimExpr(p, gs, limit, s1, e.c, f, rest, mem);
    if v.Some? {
      var (x, m) := v.value;
      TypedNext(p, gs, limit, e.c, mem);
      var n1, f1 := n, f';
      Landed(p, n1, rc.0, rc.1, f, f1, rest, mem, x, m);
      var n2, f2 := SimArms(p, gs, limit, rc.0, end, rc.1, e, x, f1, rest, m);
      var w := PickArm(gs, limit, e, x, m);
      n := Chain(p, n1, n2, rc.0, rc.1, q.0, q.1, f, f1, f2, rest, mem, x, m, w);
      f' := f2;
    } else {
      StuckAnywhere(p, n, rc.0, rc.1, q.0, q.1, f, f', rest, mem);
    }
  }

  // One step into another frame of the same function, and on from there.
  lemma StepInto(p: Program, a: nat, n: nat, s': Fn, o: Operand, f: Frame, g: Frame, f': Frame, rest: Stack,
                 mem: Memory,
                 r: Option<(Value, Memory)>)
    requires Steps(p, a, Run(f, rest, mem)) == Run(g, rest, mem) && g.fn == f.fn && g.regs == f.regs
    requires Gives(p, n, s', o, g, f', rest, mem, r)
    ensures Gives(p, a + n, s', o, f, f', rest, mem, r)
  {
    StepsCompose(p, a, n, Run(f, rest, mem));
  }

  // The join of a conditional, entered from the end of an arm with the value y of operand o.
  lemma SimIfJoin(p: Program, s: Fn, n: nat, vt: Operand, vf: Operand, g: Frame, rest: Stack, mem: Memory, y: Value)
    returns (f': Frame)
    requires Ready(s) && At(s, g) && Installed(p, g.fn, IfJoin(s, n, vt, vf).0)
    requires || (g.prev == IncomingBlock(vt, n + 1) && OperandValue(vt, g.regs) == Some(y))
             || (g.prev != IncomingBlock(vt, n + 1) && g.prev == IncomingBlock(vf, n + 2) &&
                 OperandValue(vf, g.regs) == Some(y))
    ensures Gives(p, 1, IfJoin(s, n, vt, vf).0, IfJoin(s, n, vt, vf).1, g, f', rest, mem, Some((y, mem)))
  {
    var inc := [(vt, IncomingBlock(vt, n + 1)), (vf, IncomingBlock(vf, n + 2))];
    var i := Phi(inc);
    assert inc[1..] == [(vf, IncomingBlock(vf, n + 2))];
    assert FindIncoming(inc, g.prev) == Some(if g.prev == IncomingBlock(vt, n + 1) then vt else vf);
    f' := Define(g, y);
    hide At, Lands, Installed, FindIncoming;
    SimAppend(p, s, i, g, rest, mem);
    One(p, Run(g, rest, mem));
    DefineLands(s, i, g, y);
  }

  lemma SimThenExit(p: Program, gs: seq<Global>, limit: nat, s: Fn, end: nat, vt: Operand, e: Expr, f: Frame,
                    rest: Stack, mem: Memory, y: Value)
    returns (f': Frame)
    requires Ready(s) && Vacant(s, end) && Vacant(s, end + 2) && Generates(gs, limit, e)
    requires At(s, f) && OperandValue(vt, f.regs) == Some(y) && IncomingBlock(vt, end + 1) == s.cur
    requires Installed(p, f.fn, EmitElse(gs, limit, s, end, vt, e).0)
    ensures var q := EmitElse(gs, limit, s, end, vt, e);
            Gives(p, 2, q.0, q.1, f, f', rest, mem, Some((y, mem)))
  {
    var s1 := Turn(end, s, Br(end), end + 2);
    var rf := Emit(gs, limit, s1, e);
    UnfoldElse(gs, limit, s, end, vt, e);
    var s2 := Turn(end, rf.0, Br(end), end);
    var q := IfJoin(s2, end, vt, rf.1);
    LaterTrans(s, s1, rf.0); LaterTrans(s, rf.0, s2); LaterTrans(s1, rf.0, q.0);
    assert s1.blocks[s.cur].term.Some? && s2.blocks[s.cur].term.Some?;
    hide At, Installed, Later, Emit, EmitElse, Generates, IfJoin, Gives, GrowsFrom, Vacant;
    EarlierLater(p, f.fn, s1, q.0);
    AtGoto(s, s2, f, end);
    SimTurn(p, end, s, Br(end), end + 2, f, rest, mem);
    f' := SimIfJoin(p, s2, end, vt, rf.1, Goto(f, end), rest, mem, y);
    StepInto(p, 1, 1, q.0, q.1, f, Goto(f, end), f', rest, mem, Some((y, mem)));
  }

  lemma SimElseExit(p: Program, s0: Fn, s: Fn, end: nat, vt: Operand, vf: Operand, f: Frame, rest: Stack,
                    mem: Memory, y: Value)
    returns (f': Frame)
    requires Ready(s) && Vacant(s, end) && s.cur != IncomingBlock(vt, end + 1) && IncomingBlock(vf, end + 2) == s.cur
    requires At(s, f) && OperandValue(vf, f.regs) == Some(y)
    requires Installed(p, f.fn, IfJoin(Turn(end, s, Br(end), end), end, vt, vf).0)
    ensures var q := IfJoin(Turn(end, s, Br(end), end), end, vt, vf);
            Gives(p, 2, q.0, q.1, f, f', rest, mem, Some((y, mem)))
  {
    var s1 := Turn(end, s, Br(end), end);
    var q := IfJoin(s1, end, vt, vf);
    hide Installed, At, Gives, GrowsFrom, IfJoin;
    Earlier(p, f.fn, s1, q.0);
    SimTurn(p, end, s, Br(end), end, f, rest, mem);
    f' := SimIfJoin(p, s1, end, vt, vf, Goto(f, end), rest, mem, y);
    StepInto(p, 1, 1, q.0, q.1, f, Goto(f, end), f', rest, mem, Some((y, mem)));
  }

  // The branch to the arms.
  lemma ArmsBranch(s: Fn, end: nat, cond: Operand, x: Value, f: Frame, rest: Stack, mem: Memory)
    requires Ready(s) && Vacant(s, end + 1) && OperandValue(cond, f.regs) == Some(x)
    ensures Open(s, end + 1) && end + 1 != s.cur && s.cur < |s.blocks| && end + 1 < |s.blocks|
    ensures var t := CondBr(cond, end + 1, end + 2);
            && s.blocks[end + 1].instrs == [] && Turn(end, s, t, end + 1).blocks[s.cur].term.Some?
            && ExecTerm(t, f, rest, mem)
               == if x.B? then Run(Goto(f, if x.b then end + 1 else end + 2), rest, mem) else Stuck
  {
    hide GrowsFrom, Later;
  }

  lemma {:induction false} SimArms(p: Program, gs: seq<Global>, limit: nat, s: Fn, end: nat, cond: Operand, e: Expr,
                                   x: Value,
                                   f: Frame, rest: Stack, mem: Memory)
    returns (n: nat, f': Frame)
    requires Setting(p, gs, limit, mem) && e.If? && Generates(gs, limit, e)
    requires Ready(s) && Vacant(s, end) && Vacant(s, end + 1) && Vacant(s, end + 2)
    requires At(s, f) && OperandValue(cond, f.regs) == Some(x) &&
             Installed(p, f.fn, EmitArms(gs, limit, s, end, cond, e).0)
    ensures var q := EmitArms(gs, limit, s, end, cond, e);
            Gives(p, n, q.0, q.1, f, f', rest, mem, PickArm(gs, limit, e, x, mem))
    decreases limit, e, 0
  {
    hide At, Installed, Later, Emit, EmitElse, EmitArms, Generates, Gives, GrowsFrom, Vacant, Setting, Eval, Open,
      ExecTerm;
    var t := CondBr(cond, end + 1, end + 2);
    var q := EmitArms(gs, limit, s, end, cond, e);
    ArmsBranch(s, end, cond, x, f, rest, mem);
    var s1 := Turn(end, s, t, end + 1);
    UnfoldArms(gs, limit, s, end, cond, e);
    var rt := Emit(gs, limit, s1, e.t);
    LaterTrans(s1, rt.0, q.0);
    EarlierLater(p, f.fn, s1, q.0);
    SimTurn(p, end, s, t, end + 1, f, rest, mem);
    if !x.B? {
      n, f' := 1, f;
      StuckGives(p, n, q.0, q.1, f, f', rest, mem);
    } else if x.b {
      EarlierLater(p, f.fn, rt.0, q.0);
      n, f' := SimTrueArm(p, gs, limit, s1, end, e, Goto(f, end + 1), rest, mem);
      StepInto(p, 1, n, q.0, q.1, f, Goto(f, end + 1), f', rest, mem, Eval(gs, limit, e.t, mem));
      n := 1 + n;
    } else {
      ArmHere(gs, limit, s1, e.t, end + 1);
      FalseArmAt(s, s1, rt.0, end, f);
      n, f' := SimFalseArm(p, gs, limit, rt.0, end, rt.1, e, Goto(f, end + 2), rest, mem);
      StepInto(p, 1, n, q.0, q.1, f, Goto(f, end + 2), f', rest, mem, Eval(gs, limit, e.f, mem));
      n := 1 + n;
    }
  }

  // The frame that skips the true arm stands at the stage where the false arm begins.
  lemma FalseArmAt(s: Fn, s1: Fn, rt: Fn, end: nat, f: Frame)
    requires At(s, f) && Later(s, s1) && Later(s1, rt) && s1.blocks[s.cur].term.Some?
    requires Ready(rt) && Vacant(rt, end) && Vacant(rt, end + 2)
    ensures At(Turn(end, rt, Br(end), end + 2), Goto(f, end + 2))
  {
    var s2 := Turn(end, rt, Br(end), end + 2);
    LaterTrans(s, s1, rt);
    LaterTrans(s, rt, s2);
    AtGoto(s, s2, f, end + 2);
  }

  lemma StuckGives(p: Program, n: nat, s: Fn, o: Operand, f: Frame, f': Frame, rest: Stack, mem: Memory)
    requires Steps(p, n, Run(f, rest, mem)) == Stuck
    ensures Gives(p, n, s, o, f, f', rest, mem, None)
  {
  }

  lemma {:induction false} SimTrueArm(p: Program, gs: seq<Global>, limit: nat, s: Fn, end: nat, e: Expr, f: Frame,
                                      rest: Stack, mem: Memory)
    returns (n: nat, f': Frame)
    requires Setting(p, gs, limit, mem) && e.If? && Generates(gs, limit, e.t) && Generates(gs, limit, e.f)
    requires At(s, f) && s.cur == end + 1
    requires var rt := Emit(gs, limit, s, e.t);
             && Vacant(rt.0, end) && Vacant(rt.0, end + 2)
             && Installed(p, f.fn, EmitElse(gs, limit, rt.0, end, rt.1, e.f).0)
    ensures var rt := Emit(gs, limit, s, e.t);
            var q := EmitElse(gs, limit, rt.0, end, rt.1, e.f);
            Gives(p, n, q.0, q.1, f, f', rest, mem, Eval(gs, limit, e.t, mem))
    decreases limit, e.t, 6
  {
    var rt := Emit(gs, limit, s, e.t);
    var q := EmitElse(gs, limit, rt.0, end, rt.1, e.f);
    var v := Eval(gs, limit, e.t, mem);
    hide *;
    EarlierLater(p, f.fn, rt.0, q.0);
    ArmHere(gs, limit, s, e.t, end + 1);
    n, f' := SimExpr(p, gs, limit, s, e.t, f, rest, mem);
    if v.Some? {
      var (y, m) := v.value;
      var n1, f1 := n, f';
      Landed(p, n1, rt.0, rt.1, f, f1, rest, mem, y, m);
      f' := SimThenExit(p, gs, limit, rt.0, end, rt.1, e.f, f1, rest, m, y);
      n := Chain(p, n1, 2, rt.0, rt.1, q.0, q.1, f, f1, f', rest, mem, y, m, Some((y, m)));
    } else {
      StuckAnywhere(p, n, rt.0, rt.1, q.0, q.1, f, f', rest, mem);
    }
  }

  // The value of an arm enters the phi from the block where the arm ends.
  lemma ArmHere(gs: seq<Global>, limit: nat, s: Fn, e: Expr, arm: nat)
    requires Ready(s) && Generates(gs, limit, e) && s.cur == arm
    ensures IncomingBlock(Emit(gs, limit, s, e).1, arm) == Emit(gs, limit, s, e).0.cur
  {
    ValueHere(gs, limit, s, e);
  }

  lemma {:induction false} SimFalseArm(p: Program, gs: seq<Global>, limit: nat, s: Fn, end: nat, vt: Operand,
                                       e: Expr, f: Frame, rest: Stack, mem: Memory)
    returns (n: nat, f': Frame)
    requires Setting(p, gs, limit, mem) && e.If? && Generates(gs, limit, e.f)
    requires Ready(s) && Vacant(s, end) && Vacant(s, end + 2) && IncomingBlock(vt, end + 1) == s.cur
    requires At(Turn(end, s, Br(end), end + 2), f) && Installed(p, f.fn, EmitElse(gs, limit, s, end, vt, e.f).0)
    ensures var q := EmitElse(gs, limit, s, end, vt, e.f);
            Gives(p, n, q.0, q.1, f, f', rest, mem, Eval(gs, limit, e.f, mem))
    decreases limit, e.f, 6
  {
    var s1 := Turn(end, s, Br(end), end + 2);
    var rf := Emit(gs, limit, s1, e.f);
    var q := EmitElse(gs, limit, s, end, vt, e.f);
    var v := Eval(gs, limit, e.f, mem);
    assert s1.cur == end + 2;
    hide *;
    UnfoldElse(gs, limit, s, end, vt, e.f);
    EarlierLater(p, f.fn, rf.0, q.0);
    ArmHere(gs, limit, s1, e.f, end + 2);
    n, f' := SimExpr(p, gs, limit, s1, e.f, f, rest, mem);
    if v.Some? {
      var (y, m) := v.value;
      var n1, f1 := n, f';
      Landed(p, n1, rf.0, rf.1, f, f1, rest, mem, y, m);
      f' := SimElseExit(p, s, rf.0, end, vt, rf.1, f1, rest, m, y);
      n := Chain(p, n1, 2, rf.0, rf.1, q.0, q.1, f, f1, f', rest, mem, y, m, Some((y, m)));
    } else {
      StuckAnywhere(p, n, rf.0, rf.1, q.0, q.1, f, f', rest, mem);
    }
  }

  // ---------- global loads ----------

  // The memory once lazy global g is initialised.
  function Initialised(gs: seq<Global>, g: nat, mem: Memory): Option<Memory>
    requires g < |gs| && gs[g].Lazy?
  {
    if g in mem.done then Some(mem)
    else
      var r := Eval(gs, g, gs[g].def, mem);
      if r.None? then None else Some(Remember(g, r.value.0, r.value.1))
  }

  lemma UnfoldLoad(gs: seq<Global>, limit: nat, s: Fn, g: nat, mem: Memory)
    requires Ready(s) && g < limit && g < |gs| && gs[g].Lazy?
    ensures Vacant(LoadTest(s, g).0, |s.blocks|) && Vacant(LoadTest(s, g).0, |s.blocks| + 1)
    ensures var test := LoadTest(s, g);
            EmitLoad(gs, s, g) == Append(LoadInit(test.0, |s.blocks|, test.1, g), Load(g))
    ensures var v := Initialised(gs, g, mem);
            Eval(gs, limit, Global(g), mem) == if v.None? then None else ReadGlobal(g, v.value)
  {
    hide LoadTest, LoadInit, Append, ReadGlobal, Remember;
  }

  lemma SimRead(p: Program, s: Fn, g: nat, f: Frame, rest: Stack, mem: Memory) returns (n: nat, f': Frame)
    requires Ready(s) && At(s, f) && Installed(p, f.fn, Append(s, Load(g)).0)
    ensures var q := Append(s, Load(g)); Gives(p, n, q.0, q.1, f, f', rest, mem, ReadGlobal(g, mem))
  {
    SimAppend(p, s, Load(g), f, rest, mem);
    One(p, Run(f, rest, mem));
    n, f' := 1, f;
    if g in mem.vals {
      f' := Define(f, mem.vals[g]);
      DefineLands(s, Load(g), f, mem.vals[g]);
    }
  }

  lemma SimLoadTest(p: Program, s: Fn, g: nat, f: Frame, rest: Stack, mem: Memory) returns (n: nat, f': Frame)
    requires Ready(s) && At(s, f) && Installed(p, f.fn, LoadTest(s, g).0)
    ensures var q := LoadTest(s, g); Gives(p, n, q.0, q.1, f, f', rest, mem, Some((B(g !in mem.done), mem)))
  {
    var s1 := LoadBlocks(s);
    var done := Append(s1, LoadDone(g));
    var i := ICmp(Eq, done.1, FALSE);
    var test := Build(done.0, i);
    var d := B(g in mem.done);
    var f1 := Define(f, d);
    assert Grows(s, s1) && |s1.blocks[s1.cur].instrs| == |s.blocks[s.cur].instrs|;
    GrowsLater(s, s1);
    AtNew(s, s1, f);
    hide At, Lands, Installed, GrowsFrom, Build, LoadBlocks;
    Earlier(p, f.fn, done.0, test.0);
    SimAppend(p, s1, LoadDone(g), f, rest, mem);
    One(p, Run(f, rest, mem));
    DefineLands(s1, LoadDone(g), f, d);
    assert Gives(p, 1, done.0, done.1, f, f1, rest, mem, Some((d, mem)));
    Landed(p, 1, done.0, done.1, f, f1, rest, mem, d, mem);
    n, f' := SimNext(p, 1, done.0, done.1, i, f, f1, rest, mem, d, mem);
    assert PureValue(i, f1.regs) == Some(B(g !in mem.done));
  }

  // The finished initialiser of g and its stages.
  lemma InitStages(p: Program, gs: seq<Global>, g: nat, mem: Memory)
    requires Setting(p, gs, g + 1, mem) && gs[g].Lazy?
    ensures Setting(p, gs, g, mem) && Generates(gs, g, gs[g].def) && Ready(FRESH) && HasFn(p, Init(g)) &&
            g in p.inits && Entry(p.inits[g]) == 0
    ensures var r := Emit(gs, g, FRESH, gs[g].def);
            var s1 := Append(r.0, Store(g, r.1)).0;
            var s2 := Append(s1, StoreDone(g)).0;
            && Installed(p, Init(g), r.0) && Installed(p, Init(g), s1) && Installed(p, Init(g), s2)
            && p.inits[g] == Finish(s2, RetVoid)
    ensures At(FRESH, Frame(Init(g), 0, 0, 0, map[]))
  {
    hide Emit, Generates, GrowsFrom, PartOf, Later, MemTyped, Resolve;
    var r := Emit(gs, g, FRESH, gs[g].def);
    var s1 := Append(r.0, Store(g, r.1)).0;
    var s2 := Append(s1, StoreDone(g)).0;
    var code := Finish(s2, RetVoid);
    assert p.inits[g] == code;
    FreshLaid();
    GrowsLaid(FRESH, r.0);
    FinishPart(s2, RetVoid);
    AppendPart(s1, StoreDone(g), code);
    AppendPart(r.0, Store(g, r.1), code);
  }

  lemma GrowsLaid(s: Fn, s': Fn)
    requires Grows(s, s') && Laid(s)
    ensures Laid(s')
  {
    hide Laid;
  }

  lemma FinishPart(s: Fn, t: Terminator)
    requires Ready(s)
    ensures PartOf(s, Finish(s, t))
  {
  }

  lemma AppendPart(s: Fn, i: Instr, f: Fn)
    requires Ready(s) && PartOf(Effect(s, i), f)
    ensures PartOf(s, f)
  {
  }

  lemma {:induction false} SimInit(p: Program, gs: seq<Global>, g: nat, back: Frame, rest: Stack,
                                   mem: Memory) returns (n: nat)
    requires Setting(p, gs, g + 1, mem) && gs[g].Lazy?
    ensures var r := Eval(gs, g, gs[g].def, mem);
            Steps(p, n, Run(Frame(Init(g), 0, 0, 0, map[]), Push(back, rest), mem)) ==
            if r.None? then Stuck else Run(back, rest, Remember(g, r.value.0, r.value.1))
    decreases g, gs[g].def, 9
  {
    var e := gs[g].def;
    var f0 := Frame(Init(g), 0, 0, 0, map[]);
    InitStages(p, gs, g, mem);
    hide *;
    var r := Emit(gs, g, FRESH, e);
    var f1;
    n, f1 := SimExpr(p, gs, g, FRESH, e, f0, Push(back, rest), mem);
    n := SimInitEnd(p, gs, g, n, r.0, r.1, f0, f1, back, rest, mem, Eval(gs, g, e, mem));
  }

  lemma SimInitEnd(p: Program, gs: seq<Global>, g: nat, n1: nat, s: Fn, o: Operand, f0: Frame, f1: Frame,
                   back: Frame, rest: Stack,
                   mem: Memory, v: Option<(Value, Memory)>)
    returns (n: nat)
    requires Ready(s) && f0.fn == Init(g) && g in p.inits && Gives(p, n1, s, o, f0, f1, Push(back, rest), mem, v)
    requires var s1 := Append(s, Store(g, o)).0;
             var s2 := Append(s1, StoreDone(g)).0;
             Installed(p, Init(g), s1) && Installed(p, Init(g), s2) && p.inits[g] == Finish(s2, RetVoid)
    ensures Steps(p, n, Run(f0, Push(back, rest), mem)) ==
            if v.None? then Stuck else Run(back, rest, Remember(g, v.value.0, v.value.1))
  {
    hide At, Installed, Append, Finish, Remember, Steps, Keeps, OperandValue;
    n := n1;
    if v.Some? {
      InitTail(p, gs, g, s, o, f1, back, rest, v.value.1, v.value.0);
      StepsCompose(p, n1, 3, Run(f0, Push(back, rest), mem));
      n := n1 + 3;
    }
  }

  // Storing the value and the done flag, and returning.
  lemma InitTail(p: Program, gs: seq<Global>, g: nat, s: Fn, o: Operand, f: Frame, back: Frame, rest: Stack,
                 mem: Memory, x: Value)
    requires Ready(s) && At(s, f) && f.fn == Init(g) && OperandValue(o, f.regs) == Some(x) && g in p.inits
    requires var s1 := Append(s, Store(g, o)).0;
             var s2 := Append(s1, StoreDone(g)).0;
             Installed(p, Init(g), s1) && Installed(p, Init(g), s2) && p.inits[g] == Finish(s2, RetVoid)
    ensures Steps(p, 3, Run(f, Push(back, rest), mem)) == Run(back, rest, Remember(g, x, mem))
  {
    var stack := Push(back, rest);
    var s1 := Append(s, Store(g, o)).0;
    var s2 := Append(s1, StoreDone(g)).0;
    var m1 := mem.(vals := mem.vals[g := x], log := mem.log + [Stored(g, x)]);
    var m2 := m1.(done := m1.done + {g});
    var f1, f2 := Advance(f), Advance(Advance(f));
    assert m2 == Remember(g, x, mem);
    hide At, Installed, Remember, Append, Finish;
    SimEffect(p, s, Store(g, o), f, stack, mem, m1);
    SimEffect(p, s1, StoreDone(g), f1, stack, m1, m2);
    SimReturn(p, s2, f2, back, rest, m2);
    Three(p, Run(f, stack, mem));
  }

  // An instruction that defines no register.
  lemma SimEffect(p: Program, s: Fn, i: Instr, f: Frame, rest: Stack, mem: Memory, mem': Memory)
    requires Ready(s) && At(s, f) && Installed(p, f.fn, Append(s, i).0)
    requires ExecInstr(p, i, f, rest, mem) == Run(Advance(f), rest, mem')
    ensures Step(p, Run(f, rest, mem)) == Run(Advance(f), rest, mem')
    ensures At(Append(s, i).0, Advance(f)) && Advance(f).fn == f.fn
  {
    SimAppend(p, s, i, f, rest, mem);
  }

  lemma SimReturn(p: Program, s: Fn, f: Frame, back: Frame, rest: Stack, mem: Memory)
    requires Ready(s) && At(s, f) && f.fn.Init? && f.fn.g in p.inits && p.inits[f.fn.g] == Finish(s, RetVoid)
    ensures Step(p, Run(f, Push(back, rest), mem)) == Run(back, rest, mem)
  {
  }

  lemma Three(p: Program, c: Config)
    ensures Steps(p, 3, c) == Step(p, Step(p, Step(p, c)))
  {
    assert Steps(p, 3, c) == Steps(p, 2, Step(p, c));
    assert Steps(p, 2, Step(p, c)) == Steps(p, 1, Step(p, Step(p, c)));
    One(p, Step(p, Step(p, c)));
  }

  lemma LoadInitStages(p: Program, s: Fn, end: nat, test: Operand, g: nat, f: Frame)
    requires Ready(s) && Vacant(s, end) && Vacant(s, end + 1)
    requires At(s, f) && Installed(p, f.fn, LoadInit(s, end, test, g))
    ensures var s1 := Turn(end, s, CondBr(test, end + 1, end), end + 1);
            var s2 := Append(s1, CallInit(g)).0;
            && Ready(s1) && Ready(s2) && Open(s2, end) && s2.cur != end && s2.blocks[end].instrs == []
            && LoadInit(s, end, test, g) == Turn(end, s2, Br(end), end)
            && Installed(p, f.fn, s1) && Installed(p, f.fn, s2)
    ensures At(LoadInit(s, end, test, g), Goto(f, end)) && Goto(f, end).fn == f.fn && Goto(f, end).regs == f.regs
  {
    var s1 := Turn(end, s, CondBr(test, end + 1, end), end + 1);
    var s2 := Append(s1, CallInit(g)).0;
    var s3 := LoadInit(s, end, test, g);
    assert s3 == Turn(end, s2, Br(end), end);
    assert Later(s1, s2) && s3.blocks[s.cur].term.Some?;
    AtGoto(s, s3, f, end);
    EarlierLater(p, f.fn, s2, s3);
    EarlierLater(p, f.fn, s1, s2);
  }

  // Nothing but the position of the frame and the memory has changed.
  lemma Standing(p: Program, n: nat, s: Fn, f: Frame, f': Frame, rest: Stack, mem: Memory, m: Memory)
    requires Steps(p, n, Run(f, rest, mem)) == Run(f', rest, m)
    requires At(s, f') && f'.fn == f.fn && f'.regs == f.regs
    ensures Gives(p, n, s, FALSE, f, f', rest, mem, Some((B(false), m)))
  {
  }

  lemma {:induction false} SimCall(p: Program, gs: seq<Global>, limit: nat, s: Fn, g: nat, f: Frame, rest: Stack,
                                   mem: Memory)
    returns (n: nat)
    requires Setting(p, gs, limit, mem) && g < limit <= |gs| && gs[g].Lazy? && g !in mem.done
    requires Ready(s) && At(s, f) && Installed(p, f.fn, Append(s, CallInit(g)).0)
    ensures var v := Initialised(gs, g, mem);
            Steps(p, n, Run(f, rest, mem)) == if v.None? then Stuck else Run(Advance(f), rest, v.value)
    decreases limit, Global(g), 0
  {
    hide *;
    SettingUpTo(p, gs, limit, g + 1, mem);
    NotDoneInitialised(gs, g, mem);
    InitStages(p, gs, g, mem);
    CallStep(p, s, g, f, rest, mem);
    var f0 := Frame(Init(g), 0, 0, 0, map[]);
    var v := Initialised(gs, g, mem);
    var n1 := SimInit(p, gs, g, Advance(f), rest, mem);
    Then(p, 1, n1, Run(f, rest, mem), Run(f0, Push(Advance(f), rest), mem),
         if v.None? then Stuck else Run(Advance(f), rest, v.value));
    n := 1 + n1;
  }

  lemma SettingUpTo(p: Program, gs: seq<Global>, limit: nat, k: nat, mem: Memory)
    requires Setting(p, gs, limit, mem) && k <= limit
    ensures Setting(p, gs, k, mem)
  {
  }

  lemma NotDoneInitialised(gs: seq<Global>, g: nat, mem: Memory)
    requires g < |gs| && gs[g].Lazy? && g !in mem.done
    ensures var r := Eval(gs, g, gs[g].def, mem);
            Initialised(gs, g, mem) == if r.None? then None else Some(Remember(g, r.value.0, r.value.1))
  {
  }

  lemma CallStep(p: Program, s: Fn, g: nat, f: Frame, rest: Stack, mem: Memory)
    requires Ready(s) && At(s, f) && Installed(p, f.fn, Append(s, CallInit(g)).0)
    requires g in p.inits && Entry(p.inits[g]) == 0
    ensures Steps(p, 1, Run(f, rest, mem)) == Run(Frame(Init(g), 0, 0, 0, map[]), Push(Advance(f), rest), mem)
  {
    SimAppend(p, s, CallInit(g), f, rest, mem);
    One(p, Run(f, rest, mem));
  }

  lemma DoneInitialised(gs: seq<Global>, g: nat, mem: Memory)
    requires g < |gs| && gs[g].Lazy?
    ensures g in mem.done ==> Initialised(gs, g, mem) == Some(mem)
  {
  }

  lemma VacantOpen(s: Fn, b: nat)
    requires Vacant(s, b)
    ensures Open(s, b) && b != s.cur
  {
  }

  lemma {:induction false} SimLoadInit(p: Program, gs: seq<Global>, limit: nat, s: Fn, end: nat, test: Operand, g: nat,
                                       f: Frame, rest: Stack, mem: Memory)
    returns (n: nat, f': Frame)
    requires Setting(p, gs, limit, mem) && g < limit <= |gs| && gs[g].Lazy?
    requires Ready(s) && Vacant(s, end) && Vacant(s, end + 1)
    requires At(s, f) && OperandValue(test, f.regs) == Some(B(g !in mem.done)) &&
             Installed(p, f.fn, LoadInit(s, end, test, g))
    ensures var v := Initialised(gs, g, mem);
            Gives(p, n, LoadInit(s, end, test, g), FALSE, f, f', rest, mem,
                  if v.None? then None else Some((B(false), v.value)))
    decreases limit, Global(g), 1
  {
    hide *;
    DoneInitialised(gs, g, mem);
    VacantOpen(s, end + 1);
    var v := Initialised(gs, g, mem);
    var s1 := Turn(end, s, CondBr(test, end + 1, end), end + 1);
    var s3 := LoadInit(s, end, test, g);
    LoadInitStages(p, s, end, test, g, f);
    SimLoadBranch(p, s, end, test, g, f, rest, mem);
    if g in mem.done {
      n, f' := 1, Goto(f, end);
      Standing(p, n, s3, f, f', rest, mem, mem);
    } else {
      var g1 := Goto(f, end + 1);
      var n2 := SimCall(p, gs, limit, s1, g, g1, rest, mem);
      StepsCompose(p, 1, n2, Run(f, rest, mem));
      if v.Some? {
        n, f' := SimAfterCall(p, s1, Append(s1, CallInit(g)).0, s3, end, g, 1 + n2, f, g1, rest, mem, v.value);
      } else {
        n, f' := 1 + n2, f;
        StuckGives(p, n, s3, FALSE, f, f', rest, mem);
      }
    }
  }

  lemma SimLoadBranch(p: Program, s: Fn, end: nat, test: Operand, g: nat, f: Frame, rest: Stack, mem: Memory)
    requires Ready(s) && Vacant(s, end) && Vacant(s, end + 1) && At(s, f)
    requires OperandValue(test, f.regs) == Some(B(g !in mem.done))
    requires Installed(p, f.fn, Turn(end, s, CondBr(test, end + 1, end), end + 1))
    ensures var f' := Goto(f, if g in mem.done then end else end + 1);
            Steps(p, 1, Run(f, rest, mem)) == Run(f', rest, mem) && f'.fn == f.fn && f'.regs == f.regs
    ensures g !in mem.done ==> At(Turn(end, s, CondBr(test, end + 1, end), end + 1), Goto(f, end + 1))
    ensures g !in mem.done ==> Goto(f, end + 1).fn == f.fn && Goto(f, end + 1).regs == f.regs
  {
    var t := CondBr(test, end + 1, end);
    assert ExecTerm(t, f, rest, mem) == Run(Goto(f, if g in mem.done then end else end + 1), rest, mem);
    assert s.blocks[end + 1].instrs == [];
    hide At, Installed, GrowsFrom, Later, ExecTerm;
    SimTurn(p, end, s, t, end + 1, f, rest, mem);
  }

  // Back from the call, on to the block of the load.
  lemma SimAfterCall(p: Program, s1: Fn, s2: Fn, s3: Fn, end: nat, g: nat, k: nat, f: Frame, g1: Frame, rest: Stack,
                     mem: Memory, m: Memory)
    returns (n: nat, f': Frame)
    requires Ready(s1) && At(s1, g1) && s2 == Append(s1, CallInit(g)).0 && Open(s2, end) && s2.cur != end
    requires s2.blocks[end].instrs == [] && s3 == Turn(end, s2, Br(end), end) && Installed(p, f.fn, s3)
    requires g1.fn == f.fn && g1.regs == f.regs
    requires Steps(p, k, Run(f, rest, mem)) == Run(Advance(g1), rest, m)
    ensures Gives(p, n, s3, FALSE, f, f', rest, mem, Some((B(false), m)))
  {
    var g2 := Advance(g1);
    assert At(s2, g2);
    hide At, Installed, Append, Later, GrowsFrom;
    SimTurn(p, end, s2, Br(end), end, g2, rest, m);
    Then(p, k, 1, Run(f, rest, mem), Run(g2, rest, m), Run(Goto(g2, end), rest, m));
    n, f' := k + 1, Goto(g2, end);
    Standing(p, n, s3, f, f', rest, mem, m);
  }

  lemma {:induction false} SimLoad(p: Program, gs: seq<Global>, limit: nat, s: Fn, g: nat, f: Frame, rest: Stack,
                                   mem: Memory)
    returns (n: nat, f': Frame)
    requires Setting(p, gs, limit, mem) && g < limit
    requires At(s, f) && Installed(p, f.fn, EmitLoad(gs, s, g).0)
    ensures var r := EmitLoad(gs, s, g);
            Gives(p, n, r.0, r.1, f, f', rest, mem, Eval(gs, limit, Global(g), mem))
    decreases limit, Global(g), 3
  {
    assert Ready(s);
    hide At, Gives, Lands, Installed, LoadTest, LoadInit, GrowsFrom, Later, Append, MemTyped, Declared, Linked,
      ReadGlobal, Remember, Ready;
    if gs[g].Eager? {
      n, f' := SimRead(p, s, g, f, rest, mem);
    } else {
      n, f' := SimLazyLoad(p, gs, limit, s, g, f, rest, mem);
    }
  }

  lemma {:induction false} SimLazyLoad(p: Program, gs: seq<Global>, limit: nat, s: Fn, g: nat, f: Frame, rest: Stack,
                                       mem: Memory)
    returns (n: nat, f': Frame)
    requires Setting(p, gs, limit, mem) && g < limit <= |gs| && gs[g].Lazy?
    requires At(s, f) && Installed(p, f.fn, EmitLoad(gs, s, g).0)
    ensures var r := EmitLoad(gs, s, g);
            Gives(p, n, r.0, r.1, f, f', rest, mem, Eval(gs, limit, Global(g), mem))
    decreases limit, Global(g), 2
  {
    hide *;
    AtReady(s, f);
    var v := Initialised(gs, g, mem);
    var end := |s.blocks|;
    UnfoldLoad(gs, limit, s, g, mem);
    var test := LoadTest(s, g);
    var s1 := LoadInit(test.0, end, test.1, g);
    var q := Append(s1, Load(g));
    AppendLater(s1, Load(g));
    EarlierLater(p, f.fn, s1, q.0);
    EarlierLater(p, f.fn, test.0, s1);
    n, f' := SimLoadTest(p, s, g, f, rest, mem);
    var n1, f1 := n, f';
    Landed(p, n1, test.0, test.1, f, f1, rest, mem, B(g !in mem.done), mem);
    var n2, f2 := SimLoadInit(p, gs, limit, test.0, end, test.1, g, f1, rest, mem);
    n := Chain(p, n1, n2, test.0, test.1, s1, FALSE, f, f1, f2, rest, mem, B(g !in mem.done), mem,
               if v.None? then None else Some((B(false), v.value)));
    f' := f2;
    if v.Some? {
      Landed(p, n, s1, FALSE, f, f2, rest, mem, B(false), v.value);
      var n3, f3 := SimRead(p, s1, g, f2, rest, v.value);
      n := Chain(p, n, n3, s1, FALSE, q.0, q.1, f, f2, f3, rest, mem, B(false), v.value, ReadGlobal(g, v.value));
      f' := f3;
    } else {
      StuckAnywhere(p, n, s1, FALSE, q.0, q.1, f, f', rest, mem);
    }
  }

  lemma AppendLater(s: Fn, i: Instr)
    requires Ready(s)
    ensures Later(s, Append(s, i).0)
  {
  }

  // ---------- and, or ----------

  // The value v of the block in work is what the join has collected from it.
  ghost predicate Passed(s: Fn, end: nat, v: Operand) {
    Collecting(s, end) && FindIncoming(Incoming(s, end), s.cur) == Some(v)
  }

  // The join has collected nothing from block k or later ones.
  ghost predicate Before(s: Fn, end: nat, k: nat) {
    Collecting(s, end) && forall i :: 0 <= i < |Incoming(s, end)| ==> Incoming(s, end)[i].1 < k
  }

  lemma CollectPassed(s: Fn, end: nat, v: Operand, k: nat)
    requires Before(s, end, k) && k <= s.cur
    ensures Passed(Collect(s, end, v), end, v) && Before(Collect(s, end, v), end, |Collect(s, end, v).blocks|)
  {
    FindLast(Incoming(s, end), v, s.cur);
  }

  lemma CollectAt(s: Fn, end: nat, v: Operand, f: Frame)
    requires At(s, f) && Collecting(s, end)
    ensures At(Collect(s, end, v), f)
  {
  }

  lemma OpenJoinAt(s: Fn, f: Frame)
    requires At(s, f)
    ensures At(OpenJoin(s), f) && Before(OpenJoin(s), |s.blocks|, 0)
  {
    AtNew(s, OpenJoin(s), f);
  }

  lemma BeforeKept(s: Fn, s': Fn, end: nat, k: nat)
    requires Before(s, end, k) && Grows(s, s') && k <= s.cur
    ensures Before(s', end, k) && k <= s'.cur && Collecting(s', end) && Collects(end, s, s')
  {
    GrowsCollects(end, s, s');
  }

  // Leaving the block in work for the join, whose phi takes the value that came with it.
  lemma SimToJoin(p: Program, r: Fn, end: nat, s: Fn, a: nat, f0: Frame, f: Frame, rest: Stack, mem: Memory,
                  o: Operand, x: Value)
    returns (f': Frame)
    requires Ready(r) && Joins(end, s, r) && Installed(p, f.fn, r) && f.fn == f0.fn && Keeps(f0.regs, f.regs)
    requires At(s, f) && Passed(s, end, o) && OperandValue(o, f.regs) == Some(x)
    requires Steps(p, a, Run(f0, rest, mem)) == Run(Goto(f, end), rest, mem)
    ensures Gives(p, a + 1, r, Reg(end, 0), f0, f', rest, mem, Some((x, mem)))
  {
    f' := SimPhi(p, r, end, s, f, rest, mem, o, x);
    Then(p, a, 1, Run(f0, rest, mem), Run(Goto(f, end), rest, mem), Run(f', rest, mem));
  }

  // The test of the value so far.
  lemma SimLogicCond(p: Program, s: Fn, conj: bool, end: nat, v: Operand, f: Frame, rest: Stack, mem: Memory, x: bool)
    returns (n: nat, f': Frame)
    requires Collecting(s, end) && At(s, f) && OperandValue(v, f.regs) == Some(B(x))
    requires Installed(p, f.fn, LogicCond(s, conj, end, v).0)
    ensures var q := LogicCond(s, conj, end, v);
            Gives(p, n, q.0, q.1, f, f', rest, mem, Some((B(x != conj), mem)))
  {
    var s1 := NewAfter(s);
    var i := ICmp(if conj then Eq else Ne, v, FALSE);
    AtNew(s, s1, f);
    assert PureValue(i, f.regs) == Some(B(x != conj));
    n, f' := SimBuild(p, s1, i, f, rest, mem);
  }

  lemma LogicTestJoins(s: Fn, conj: bool, end: nat, v: Operand, r: Fn, q: Fn)
    requires Collecting(s, end) && Passed(s, end, v) && Before(s, end, |s.blocks|)
    requires Grows(LogicTest(s, conj, end, v), r) && Joins(end, r, q)
    ensures var test := LogicCond(s, conj, end, v);
            && Joins(end, test.0, q) && Passed(test.0, end, v) && Later(LogicTest(s, conj, end, v), q)
    ensures Before(LogicTest(s, conj, end, v), end, |s.blocks|)
  {
    var test := LogicCond(s, conj, end, v);
    var s1 := LogicTest(s, conj, end, v);
    var t := CondBr(test.1, end, |s.blocks|);
    assert s1 == Turn(end, test.0, t, |s.blocks|);
    assert Collects(end, test.0, s1);
    GrowsCollects(end, s1, r);
    CollectsJoins(end, s1, r, q);
    CollectsJoins(end, test.0, s1, q);
  }

  lemma SimLogicBranch(p: Program, s: Fn, conj: bool, end: nat, v: Operand, f: Frame, rest: Stack, mem: Memory,
                       decided: bool)
    requires Collecting(s, end) && At(LogicCond(s, conj, end, v).0, f)
    requires OperandValue(LogicCond(s, conj, end, v).1, f.regs) == Some(B(decided))
    requires Installed(p, f.fn, LogicTest(s, conj, end, v))
    ensures Steps(p, 1, Run(f, rest, mem)) == Run(Goto(f, if decided then end else |s.blocks|), rest, mem)
    ensures At(LogicTest(s, conj, end, v), Goto(f, |s.blocks|))
    ensures Goto(f, |s.blocks|).fn == f.fn && Goto(f, |s.blocks|).regs == f.regs
  {
    var test := LogicCond(s, conj, end, v);
    var t := CondBr(test.1, end, |s.blocks|);
    hide At, Installed, Collects, GrowsFrom, LogicCond, Later;
    SimTurn(p, end, test.0, t, |s.blocks|, f, rest, mem);
  }

  lemma SimLogicStep(p: Program, s: Fn, conj: bool, end: nat, v: Operand, rand: Operand, k: nat, f: Frame,
                     rest: Stack, mem: Memory, y: bool)
    returns (n: nat, f': Frame)
    requires Collecting(s, end) && Before(s, end, k) && k <= s.cur && At(s, f)
    requires OperandValue(v, f.regs) == Some(B(conj)) && OperandValue(rand, f.regs) == Some(B(y))
    requires Installed(p, f.fn, LogicStep(s, conj, end, v, rand).0)
    ensures var w := LogicStep(s, conj, end, v, rand);
            Gives(p, n, w.0, w.1, f, f', rest, mem, Some((B(y), mem))) && Passed(w.0, end, w.1) &&
            Before(w.0, end, |w.0.blocks|)
  {
    hide GrowsFrom, Later, Before, Passed, Collect, Collects, Installed, At, Build, RegsIn;
    var i := Bin(if conj then And else Or, v, rand);
    var w := Build(s, i);
    LogicStepPlace(s, conj, end, v, rand, k);
    var q := Collect(w.0, end, w.1);
    EarlierLater(p, f.fn, w.0, q);
    n, f' := SimBuild(p, s, i, f, rest, mem);
    CollectAt(w.0, end, w.1, f');
  }

  // The combined value goes to the join from the block in work.
  lemma LogicStepPlace(s: Fn, conj: bool, end: nat, v: Operand, rand: Operand, k: nat)
    requires Collecting(s, end) && Before(s, end, k) && k <= s.cur
    ensures var w := Build(s, Bin(if conj then And else Or, v, rand));
            && Collecting(w.0, end) && LogicStep(s, conj, end, v, rand) == (Collect(w.0, end, w.1), w.1)
            && var q := Collect(w.0, end, w.1);
            Later(w.0, q) && Passed(q, end, w.1) && Before(q, end, |q.blocks|)
  {
    hide Build, GrowsFrom, Before, Passed;
    var w := Build(s, Bin(if conj then And else Or, v, rand));
    BeforeKept(s, w.0, end, k);
    CollectPassed(w.0, end, w.1, k);
  }

  lemma UnfoldLogicEval(gs: seq<Global>, limit: nat, conj: bool, x: bool, args: seq<Expr>, mem: Memory)
    requires BoolArgs(gs, limit, args) && args != []
    ensures Generates(gs, limit, args[0]) && Resolve(gs, limit, args[0]) == Some(TBool) &&
            BoolArgs(gs, limit, args[1..])
    ensures forall i :: 0 <= i < |args| ==> Generates(gs, limit, args[i])
    ensures EvalLogic(gs, limit, conj, B(x), args, mem) ==
            if x != conj then Some((B(x), mem))
            else
              var r := Eval(gs, limit, args[0], mem);
              if r.None? || !r.value.0.B? then None else EvalLogic(gs, limit, conj, r.value.0, args[1..], r.value.1)
  {
  }

  lemma CollectingReady(s: Fn, end: nat)
    requires Collecting(s, end)
    ensures Ready(s)
  {
  }

  lemma LogicTestPlace(s: Fn, conj: bool, end: nat, v: Operand)
    requires Collecting(s, end) && Before(s, end, |s.blocks|)
    ensures var s1 := LogicTest(s, conj, end, v);
            Ready(s1) && Before(s1, end, |s.blocks|) && |s.blocks| <= s1.cur
  {
  }

  lemma UnfoldLogicEmit(gs: seq<Global>, limit: nat, s: Fn, conj: bool, end: nat, v: Operand, args: seq<Expr>)
    requires Collecting(s, end) && args != []
    requires forall i :: 0 <= i < |args| ==> Generates(gs, limit, args[i])
    ensures var s1 := LogicTest(s, conj, end, v);
            var r := Emit(gs, limit, s1, args[0]);
            && Grows(s1, r.0) && Collecting(r.0, end)
            && var w := LogicStep(r.0, conj, end, v, r.1);
            var q := EmitLogic(gs, limit, w.0, conj, end, w.1, args[1..]);
            && EmitLogic(gs, limit, s, conj, end, v, args) == q && Joins(end, w.0, q) && Collects(end, r.0, w.0)
            && Collecting(w.0, end) && Ready(q)
  {
    hide LogicTest, LogicStep, GrowsFrom, Later, Generates, Joins;
    var s1 := LogicTest(s, conj, end, v);
    var r := Emit(gs, limit, s1, args[0]);
    GrowsCollects(end, s1, r.0);
  }

  lemma UnfoldLogic(gs: seq<Global>, limit: nat, s: Fn, conj: bool, end: nat, v: Operand, x: bool, args: seq<Expr>,
                    mem: Memory)
    requires Collecting(s, end) && Passed(s, end, v) && Before(s, end, |s.blocks|)
    requires BoolArgs(gs, limit, args) && args != []
    ensures Generates(gs, limit, args[0]) && Resolve(gs, limit, args[0]) == Some(TBool) &&
            BoolArgs(gs, limit, args[1..])
    ensures forall i :: 0 <= i < |args[1..]| ==> Generates(gs, limit, args[1..][i])
    ensures var s1 := LogicTest(s, conj, end, v);
            Ready(s1) &&
            var r := Emit(gs, limit, s1, args[0]);
            && Grows(s1, r.0) && Before(r.0, end, |s.blocks|) && |s.blocks| <= r.0.cur && Collecting(r.0, end)
            && var w := LogicStep(r.0, conj, end, v, r.1);
            var q := EmitLogic(gs, limit, w.0, conj, end, w.1, args[1..]);
            && EmitLogic(gs, limit, s, conj, end, v, args) == q && Joins(end, r.0, q) && Later(w.0, q) && Ready(q)
    ensures EvalLogic(gs, limit, conj, B(x), args, mem) ==
            if x != conj then Some((B(x), mem))
            else
              var r := Eval(gs, limit, args[0], mem);
              if r.None? || !r.value.0.B? then None else EvalLogic(gs, limit, conj, r.value.0, args[1..], r.value.1)
  {
    hide *;
    UnfoldLogicEval(gs, limit, conj, x, args, mem);
    BoolGenerates(gs, limit, args[1..]);
    UnfoldLogicEmit(gs, limit, s, conj, end, v, args);
    LogicTestPlace(s, conj, end, v);
    var s1 := LogicTest(s, conj, end, v);
    var r := Emit(gs, limit, s1, args[0]);
    BeforeKept(s1, r.0, end, |s.blocks|);
    var w := LogicStep(r.0, conj, end, v, r.1);
    CollectingReady(w.0, end);
    var q := EmitLogic(gs, limit, w.0, conj, end, w.1, args[1..]);
    CollectsJoins(end, r.0, w.0, q);
    JoinsLater(end, w.0, q);
  }

  ghost predicate BoolArgs(gs: seq<Global>, limit: nat, args: seq<Expr>) {
    forall i :: 0 <= i < |args| ==> Generates(gs, limit, args[i]) && Resolve(gs, limit, args[i]) == Some(TBool)
  }

  lemma BoolGenerates(gs: seq<Global>, limit: nat, args: seq<Expr>)
    requires BoolArgs(gs, limit, args)
    ensures forall i :: 0 <= i < |args| ==> Generates(gs, limit, args[i])
  {
  }

  lemma {:induction false} SimLogic(p: Program, gs: seq<Global>, limit: nat, s: Fn, conj: bool, end: nat, v: Operand,
                                    x: bool, args: seq<Expr>,
                                    f: Frame, rest: Stack, mem: Memory)
    returns (n: nat, f': Frame)
    requires Setting(p, gs, limit, mem) && BoolArgs(gs, limit, args)
    requires Collecting(s, end) && Passed(s, end, v) && Before(s, end, |s.blocks|)
    requires At(s, f) && OperandValue(v, f.regs) == Some(B(x)) &&
             Installed(p, f.fn, EmitLogic(gs, limit, s, conj, end, v, args))
    ensures Gives(p, n, EmitLogic(gs, limit, s, conj, end, v, args), Reg(end, 0), f, f', rest, mem,
                  EvalLogic(gs, limit, conj, B(x), args, mem))
    decreases limit, args, 2
  {
    hide *;
    if args == [] {
      n, f' := SimLogicEnd(p, gs, limit, s, conj, end, v, B(x), f, rest, mem);
    } else {
      n, f' := SimLogicMore(p, gs, limit, s, conj, end, v, x, args, f, rest, mem);
    }
  }

  lemma SimLogicEnd(p: Program, gs: seq<Global>, limit: nat, s: Fn, conj: bool, end: nat, v: Operand, x: Value,
                    f: Frame, rest: Stack, mem: Memory)
    returns (n: nat, f': Frame)
    requires Collecting(s, end) && Passed(s, end, v)
    requires At(s, f) && OperandValue(v, f.regs) == Some(x) &&
             Installed(p, f.fn, EmitLogic(gs, limit, s, conj, end, v, []))
    ensures Gives(p, n, EmitLogic(gs, limit, s, conj, end, v, []), Reg(end, 0), f, f', rest, mem,
                  EvalLogic(gs, limit, conj, x, [], mem))
  {
    var q := CloseJoin(s, end);
    n, f' := SimClose(p, s, end, v, x, f, rest, mem);
  }

  lemma SimClose(p: Program, s: Fn, end: nat, v: Operand, x: Value, f: Frame, rest: Stack,
                 mem: Memory) returns (n: nat, f': Frame)
    requires Collecting(s, end) && Passed(s, end, v)
    requires At(s, f) && OperandValue(v, f.regs) == Some(x) && Installed(p, f.fn, CloseJoin(s, end))
    ensures Gives(p, n, CloseJoin(s, end), Reg(end, 0), f, f', rest, mem, Some((x, mem)))
  {
    SimTurn(p, end, s, Br(end), end, f, rest, mem);
    f' := SimToJoin(p, CloseJoin(s, end), end, s, 1, f, f, rest, mem, v, x);
    n := 2;
  }

  lemma {:induction false} SimLogicMore(p: Program, gs: seq<Global>, limit: nat, s: Fn, conj: bool, end: nat,
                                        v: Operand, x: bool, args: seq<Expr>,
                                        f: Frame, rest: Stack, mem: Memory)
    returns (n: nat, f': Frame)
    requires Setting(p, gs, limit, mem) && BoolArgs(gs, limit, args) && args != []
    requires Collecting(s, end) && Passed(s, end, v) && Before(s, end, |s.blocks|)
    requires At(s, f) && OperandValue(v, f.regs) == Some(B(x)) &&
             Installed(p, f.fn, EmitLogic(gs, limit, s, conj, end, v, args))
    ensures Gives(p, n, EmitLogic(gs, limit, s, conj, end, v, args), Reg(end, 0), f, f', rest, mem,
                  EvalLogic(gs, limit, conj, B(x), args, mem))
    decreases limit, args, 1
  {
    hide *;
    UnfoldLogic(gs, limit, s, conj, end, v, x, args, mem);
    BoolGenerates(gs, limit, args[1..]);
    var test := LogicCond(s, conj, end, v);
    var s1 := LogicTest(s, conj, end, v);
    var r := Emit(gs, limit, s1, args[0]);
    var w := LogicStep(r.0, conj, end, v, r.1);
    var q := EmitLogic(gs, limit, w.0, conj, end, w.1, args[1..]);
    LogicTestJoins(s, conj, end, v, r.0, q);
    JoinsLater(end, r.0, q);
    JoinsLater(end, test.0, q);
    EarlierLater(p, f.fn, s1, q);
    EarlierLater(p, f.fn, r.0, q);
    EarlierLater(p, f.fn, w.0, q);
    EarlierLater(p, f.fn, test.0, q);
    var n1, f1 := SimLogicCond(p, s, conj, end, v, f, rest, mem, x);
    Landed(p, n1, test.0, test.1, f, f1, rest, mem, B(x != conj), mem);
    Kept(v, f.regs, f1.regs);
    SimLogicBranch(p, s, conj, end, v, f1, rest, mem, x != conj);
    if x != conj {
      Then(p, n1, 1, Run(f, rest, mem), Run(f1, rest, mem), Run(Goto(f1, end), rest, mem));
      f' := SimToJoin(p, q, end, test.0, n1 + 1, f, f1, rest, mem, v, B(x));
      n := n1 + 2;
    } else {
      var g := Goto(f1, |s.blocks|);
      Then(p, n1, 1, Run(f, rest, mem), Run(f1, rest, mem), Run(g, rest, mem));
      n, f' := SimLogicRest(p, gs, limit, s1, conj, end, v, args, |s.blocks|, g, rest, mem);
      KeepsOn(p, n1 + 1, n, q, Reg(end, 0), f, g, f', rest, mem, EvalLogic(gs, limit, conj, B(x), args, mem));
      n := n1 + 1 + n;
    }
  }

  lemma JoinsLater(end: nat, s: Fn, q: Fn)
    requires Joins(end, s, q)
    ensures Later(s, q)
  {
  }

  // Like StepInto, for a frame that has gained registers on the way.
  lemma KeepsOn(p: Program, a: nat, n: nat, s': Fn, o: Operand, f: Frame, g: Frame, f': Frame, rest: Stack, mem: Memory,
                r: Option<(Value, Memory)>)
    requires Steps(p, a, Run(f, rest, mem)) == Run(g, rest, mem) && g.fn == f.fn && Keeps(f.regs, g.regs)
    requires Gives(p, n, s', o, g, f', rest, mem, r)
    ensures Gives(p, a + n, s', o, f, f', rest, mem, r)
  {
    StepsCompose(p, a, n, Run(f, rest, mem));
  }

  // The next operand and what follows it.
  lemma {:induction false} SimLogicRest(p: Program, gs: seq<Global>, limit: nat, s: Fn, conj: bool, end: nat,
                                        v: Operand, args: seq<Expr>, k: nat,
                                        f: Frame, rest: Stack, mem: Memory)
    returns (n: nat, f': Frame)
    requires Setting(p, gs, limit, mem) && args != [] && BoolArgs(gs, limit, args[1..])
    requires Generates(gs, limit, args[0]) && Resolve(gs, limit, args[0]) == Some(TBool)
    requires At(s, f) && OperandValue(v, f.regs) == Some(B(conj))
    requires var r := Emit(gs, limit, s, args[0]);
             && Before(r.0, end, k) && k <= r.0.cur && Collecting(r.0, end)
             && var w := LogicStep(r.0, conj, end, v, r.1);
             var q := EmitLogic(gs, limit, w.0, conj, end, w.1, args[1..]);
             Installed(p, f.fn, r.0) && Installed(p, f.fn, w.0) && Installed(p, f.fn, q)
    ensures var r := Emit(gs, limit, s, args[0]);
            var w := LogicStep(r.0, conj, end, v, r.1);
            var q := EmitLogic(gs, limit, w.0, conj, end, w.1, args[1..]);
            var y := Eval(gs, limit, args[0], mem);
            Gives(p, n, q, Reg(end, 0), f, f', rest, mem,
                  if y.None? || !y.value.0.B? then None
                  else EvalLogic(gs, limit, conj, y.value.0, args[1..], y.value.1))
    decreases limit, args, 0
  {
    hide *;
    AtReady(s, f);
    BoolGenerates(gs, limit, args[1..]);
    var r := Emit(gs, limit, s, args[0]);
    var w := LogicStep(r.0, conj, end, v, r.1);
    var q := EmitLogic(gs, limit, w.0, conj, end, w.1, args[1..]);
    var y := Eval(gs, limit, args[0], mem);
    n, f' := SimExpr(p, gs, limit, s, args[0], f, rest, mem);
    if y.Some? {
      var (vy, m) := y.value;
      TypedNext(p, gs, limit, args[0], mem);
      var n1, f1 := n, f';
      Landed(p, n1, r.0, r.1, f, f1, rest, mem, vy, m);
      Kept(v, f.regs, f1.regs);
      var n2, f2 := SimLogicStep(p, r.0, conj, end, v, r.1, k, f1, rest, m, vy.b);
      n := Chain(p, n1, n2, r.0, r.1, w.0, w.1, f, f1, f2, rest, mem, vy, m, Some((vy, m)));
      Landed(p, n, w.0, w.1, f, f2, rest, mem, vy, m);
      StepCollecting(r.0, conj, end, v, r.1);
      var n3, f3 := SimLogic(p, gs, limit, w.0, conj, end, w.1, vy.b, args[1..], f2, rest, m);
      n := Chain(p, n, n3, w.0, w.1, q, Reg(end, 0), f, f2, f3, rest, mem, vy, m,
                 EvalLogic(gs, limit, conj, vy, args[1..], m));
      f' := f3;
    } else {
      StuckAnywhere(p, n, r.0, r.1, q, Reg(end, 0), f, f', rest, mem);
    }
  }

  lemma StepCollecting(s: Fn, conj: bool, end: nat, v: Operand, rand: Operand)
    requires Collecting(s, end)
    ensures Collecting(LogicStep(s, conj, end, v, rand).0, end)
  {
  }

  lemma {:induction false} SimLogicFirst(p: Program, gs: seq<Global>, limit: nat, s: Fn, conj: bool, args: seq<Expr>,
                                         f: Frame, rest: Stack, mem: Memory)
    returns (n: nat, f': Frame)
    requires Setting(p, gs, limit, mem) && Generates(gs, limit, Logic(conj, args))
    requires At(s, f) && Installed(p, f.fn, Emit(gs, limit, s, Logic(conj, args)).0)
    ensures var e := Logic(conj, args);
            Gives(p, n, Emit(gs, limit, s, e).0, Emit(gs, limit, s, e).1, f, f', rest, mem, Eval(gs, limit, e, mem))
    decreases limit, args, 3
  {
    hide *;
    AtReady(s, f);
    UnfoldLogicFirst(gs, limit, s, conj, args, mem);
    BoolGenerates(gs, limit, args[1..]);
    var end := |s.blocks|;
    var s1 := OpenJoin(s);
    var r := Emit(gs, limit, s1, args[0]);
    var s2 := Collect(r.0, end, r.1);
    var q := EmitLogic(gs, limit, s2, conj, end, r.1, args[1..]);
    OpenJoinAt(s, f);
    BeforeKept(s1, r.0, end, 0);
    CollectPassed(r.0, end, r.1, 0);
    EarlierLater(p, f.fn, s2, q);
    EarlierLater(p, f.fn, r.0, s2);
    n, f' := SimExpr(p, gs, limit, s1, args[0], f, rest, mem);
    var y := Eval(gs, limit, args[0], mem);
    if y.Some? {
      var (vy, m) := y.value;
      TypedNext(p, gs, limit, args[0], mem);
      var n1, f1 := n, f';
      Landed(p, n1, r.0, r.1, f, f1, rest, mem, vy, m);
      CollectAt(r.0, end, r.1, f1);
      var n2, f2 := SimLogic(p, gs, limit, s2, conj, end, r.1, vy.b, args[1..], f1, rest, m);
      n := Chain(p, n1, n2, r.0, r.1, q, Reg(end, 0), f, f1, f2, rest, mem, vy, m,
                 EvalLogic(gs, limit, conj, vy, args[1..], m));
      f' := f2;
    } else {
      StuckAnywhere(p, n, r.0, r.1, q, Reg(end, 0), f, f', rest, mem);
    }
  }

  lemma UnfoldLogicFirst(gs: seq<Global>, limit: nat, s: Fn, conj: bool, args: seq<Expr>, mem: Memory)
    requires Ready(s) && Generates(gs, limit, Logic(conj, args))
    ensures args != [] && Generates(gs, limit, args[0]) && Resolve(gs, limit, args[0]) == Some(TBool) &&
            BoolArgs(gs, limit, args[1..])
    ensures var end, s1 := |s.blocks|, OpenJoin(s);
            var r := Emit(gs, limit, s1, args[0]);
            && Collecting(r.0, end) && Grows(s1, r.0) && Collecting(Collect(r.0, end, r.1), end)
            && var s2 := Collect(r.0, end, r.1);
            var q := EmitLogic(gs, limit, s2, conj, end, r.1, args[1..]);
            Emit(gs, limit, s, Logic(conj, args)) == (q, Reg(end, 0)) && Later(s2, q) && Later(r.0, s2)
    ensures var r := Eval(gs, limit, args[0], mem);
            Eval(gs, limit, Logic(conj, args), mem) ==
            if r.None? then None else EvalLogic(gs, limit, conj, r.value.0, args[1..], r.value.1)
  {
    hide OpenJoin, Collect, GrowsFrom, Later, EmitLogic, Laid;
    var end, s1 := |s.blocks|, OpenJoin(s);
    var r := Emit(gs, limit, s1, args[0]);
    GrowsCollects(end, s1, r.0);
  }

  // ---------- membership ----------

  ghost predicate SameArgs(gs: seq<Global>, limit: nat, ty: Type, args: seq<Expr>) {
    forall i :: 0 <= i < |args| ==> Generates(gs, limit, args[i]) && Resolve(gs, limit, args[i]) == Some(ty)
  }

  lemma SameGenerate(gs: seq<Global>, limit: nat, ty: Type, args: seq<Expr>, k: nat)
    requires SameArgs(gs, limit, ty, args) && 1 <= k <= |args|
    ensures forall i :: 0 <= i < |args| ==> Generates(gs, limit, args[i])
    ensures k < |args| ==>
              Generates(gs, limit, args[0]) && Generates(gs, limit, args[k]) &&
              Generates(gs, limit, Cmp(Eq, args[0], args[k]))
    ensures args[0] < In(args) && (k < |args| ==> args[k] < In(args))
  {
  }

  lemma UnfoldInEval(gs: seq<Global>, limit: nat, args: seq<Expr>, k: nat, mem: Memory)
    requires 1 <= k < |args|
    ensures var c := Eval(gs, limit, Cmp(Eq, args[0], args[k]), mem);
            EvalIn(gs, limit, args, k, mem) ==
            if c.None? || c.value.0 == B(true) then c else EvalIn(gs, limit, args, k + 1, c.value.1)
    ensures var c := Eval(gs, limit, Cmp(Eq, args[0], args[k]), mem); c.Some? ==> c.value.0.B?
  {
  }

  lemma UnfoldInEmit(gs: seq<Global>, limit: nat, s: Fn, ty: Type, end: nat, args: seq<Expr>, k: nat)
    requires Collecting(s, end) && 1 <= k < |args| && SameArgs(gs, limit, ty, args)
    requires forall i :: 0 <= i < |args| ==> Generates(gs, limit, args[i])
    requires Generates(gs, limit, Cmp(Eq, args[0], args[k]))
    ensures var a := Emit(gs, limit, s, args[0]);
            var b := Emit(gs, limit, a.0, args[k]);
            && Collecting(b.0, end)
            && Emit(gs, limit, s, Cmp(Eq, args[0], args[k])) == EmitCmp(b.0, ty, Eq, a.1, b.1)
            && var q := EmitIn(gs, limit, InTest(b.0, ty, end, a.1, b.1), ty, end, args, k + 1);
            EmitIn(gs, limit, s, ty, end, args, k) == q && Joins(end, InTest(b.0, ty, end, a.1, b.1), q)
  {
    hide InTest, GrowsFrom, Later, Joins, EmitCmp, Generates;
    assert Resolve(gs, limit, args[0]) == Some(ty);
    var a := Emit(gs, limit, s, args[0]);
    GrowsCollects(end, s, a.0);
    var b := Emit(gs, limit, a.0, args[k]);
    GrowsCollects(end, a.0, b.0);
  }

  lemma InCondIs(b: Fn, ty: Type, end: nat, va: Operand, vb: Operand)
    requires Collecting(b, end)
    ensures var c, u := EmitCmp(b, ty, Eq, va, vb), InCond(b, ty, end, va, vb);
            var s1 := NewBefore(c.0, end);
            && end < |c.0.blocks| && Collecting(c.0, end) && Collecting(s1, end) && Grows(c.0, s1) &&
               |s1.blocks| == |c.0.blocks| + 1
            && u == (Collect(s1, end, c.1), c.1) && Later(c.0, s1) && Later(s1, u.0) && s1.cur == c.0.cur
  {
    hide EmitCmp, InsertBefore;
    var c := EmitCmp(b, ty, Eq, va, vb);
    GrowsCollects(end, b, c.0);
  }

  lemma InTestIs(b: Fn, ty: Type, end: nat, va: Operand, vb: Operand)
    requires Collecting(b, end)
    ensures var u := InCond(b, ty, end, va, vb);
            var test := |u.0.blocks| - 1;
            && Open(u.0, test) && end <= test && test != u.0.cur
            && InTest(b, ty, end, va, vb) == Turn(end, u.0, CondBr(u.1, end, test), test)
  {
    hide InCond, EmitCmp, NewBefore;
  }

  // Turning away from a stage that collects.
  lemma TurnCollects(s: Fn, end: nat, t: Terminator, next: nat)
    requires Collecting(s, end) && end < next && Open(s, next) && next != s.cur && Before(s, end, |s.blocks| - 1)
    ensures var r := Turn(end, s, t, next); Before(r, end, |s.blocks| - 1) && r.cur == next && Collects(end, s, r)
  {
    var r := Turn(end, s, t, next);
    assert r.blocks[end] == s.blocks[end];
    assert Incoming(r, end) == Incoming(s, end);
  }

  // From the comparison to the stage at which its outcome has been passed on.
  lemma InCondPlace(s: Fn, b: Fn, ty: Type, end: nat, va: Operand, vb: Operand, k: nat)
    requires Collecting(b, end) && Before(s, end, k) && k <= s.cur && Grows(s, EmitCmp(b, ty, Eq, va, vb).0)
    ensures var c, u := EmitCmp(b, ty, Eq, va, vb), InCond(b, ty, end, va, vb);
            var r := InTest(b, ty, end, va, vb);
            && Passed(u.0, end, c.1) && Before(r, end, |c.0.blocks|) && r.cur == |c.0.blocks| && Collects(end, u.0, r)
            && Later(c.0, u.0)
  {
    hide EmitCmp, InCond, InTest, Collects, Passed, GrowsFrom, Later, PhiHead;
    var c, u := EmitCmp(b, ty, Eq, va, vb), InCond(b, ty, end, va, vb);
    BeforeKept(s, c.0, end, k);
    InCondIs(b, ty, end, va, vb);
    var s1 := NewBefore(c.0, end);
    BeforeKept(c.0, s1, end, k);
    CollectBefore(s1, end, c.1, k, |c.0.blocks|);
    CollectPassed(s1, end, c.1, k);
    LaterTrans(c.0, s1, u.0);
    InTestIs(b, ty, end, va, vb);
    TurnCollects(u.0, end, CondBr(c.1, end, |c.0.blocks|), |c.0.blocks|);
  }

  lemma CollectBefore(s: Fn, end: nat, v: Operand, k: nat, n: nat)
    requires Before(s, end, k) && k <= s.cur < n && end < n && n + 1 == |s.blocks|
    ensures Before(Collect(s, end, v), end, n) && |Collect(s, end, v).blocks| == |s.blocks|
  {
  }

  lemma InCondAt(b: Fn, ty: Type, end: nat, va: Operand, vb: Operand, f: Frame)
    requires Collecting(b, end) && At(EmitCmp(b, ty, Eq, va, vb).0, f)
    ensures At(InCond(b, ty, end, va, vb).0, f)
  {
    hide EmitCmp, InsertBefore, Laid;
    var c := EmitCmp(b, ty, Eq, va, vb);
    GrowsCollects(end, b, c.0);
    var s1 := NewBefore(c.0, end);
    AtNew(c.0, s1, f);
    CollectAt(s1, end, c.1, f);
  }

  lemma SimInBranch(p: Program, b: Fn, ty: Type, end: nat, va: Operand, vb: Operand, f: Frame, rest: Stack,
                    mem: Memory, eq: bool)
    requires Collecting(b, end) && At(InCond(b, ty, end, va, vb).0, f)
    requires OperandValue(InCond(b, ty, end, va, vb).1, f.regs) == Some(B(eq))
    requires Installed(p, f.fn, InTest(b, ty, end, va, vb))
    ensures var r := InTest(b, ty, end, va, vb);
            && Steps(p, 1, Run(f, rest, mem)) == Run(Goto(f, if eq then end else r.cur), rest, mem)
            && At(r, Goto(f, r.cur)) && Goto(f, r.cur).fn == f.fn && Goto(f, r.cur).regs == f.regs
  {
    var c := InCond(b, ty, end, va, vb);
    var test := |c.0.blocks| - 1;
    hide At, Installed, Collects, GrowsFrom, InCond, Later, EmitCmp;
    SimTurn(p, end, c.0, CondBr(c.1, end, test), test, f, rest, mem);
  }

  lemma {:induction false} SimIn(p: Program, gs: seq<Global>, limit: nat, s: Fn, ty: Type, end: nat, args: seq<Expr>,
                                 k: nat, past: nat,
                                 f: Frame, rest: Stack, mem: Memory)
    returns (n: nat, f': Frame)
    requires Setting(p, gs, limit, mem) && SameArgs(gs, limit, ty, args) && 1 <= k <= |args|
    requires forall i :: 0 <= i < |args| ==> Generates(gs, limit, args[i])
    requires Collecting(s, end) && Before(s, end, past) && past <= s.cur
    requires At(s, f) && Installed(p, f.fn, EmitIn(gs, limit, s, ty, end, args, k))
    ensures Gives(p, n, EmitIn(gs, limit, s, ty, end, args, k), Reg(end, 0), f, f', rest, mem,
                  EvalIn(gs, limit, args, k, mem))
    decreases limit, In(args), 1, |args| - k, 1
  {
    hide *;
    if k == |args| {
      n, f' := SimInEnd(p, gs, limit, s, ty, end, args, past, f, rest, mem);
    } else {
      n, f' := SimInMore(p, gs, limit, s, ty, end, args, k, past, f, rest, mem);
    }
  }

  lemma SimInEnd(p: Program, gs: seq<Global>, limit: nat, s: Fn, ty: Type, end: nat, args: seq<Expr>, past: nat,
                 f: Frame, rest: Stack, mem: Memory)
    returns (n: nat, f': Frame)
    requires args != [] && forall i :: 0 <= i < |args| ==> Generates(gs, limit, args[i])
    requires Collecting(s, end) && Before(s, end, past) && past <= s.cur
    requires At(s, f) && Installed(p, f.fn, EmitIn(gs, limit, s, ty, end, args, |args|))
    ensures Gives(p, n, EmitIn(gs, limit, s, ty, end, args, |args|), Reg(end, 0), f, f', rest, mem,
                  EvalIn(gs, limit, args, |args|, mem))
  {
    var s1 := Collect(s, end, FALSE);
    assert EmitIn(gs, limit, s, ty, end, args, |args|) == CloseJoin(s1, end);
    hide EmitIn, At, Installed, Collect, Before, Passed, CloseJoin, GrowsFrom;
    CollectPassed(s, end, FALSE, past);
    CollectAt(s, end, FALSE, f);
    n, f' := SimClose(p, s1, end, FALSE, B(false), f, rest, mem);
  }

  lemma {:induction false} SimInMore(p: Program, gs: seq<Global>, limit: nat, s: Fn, ty: Type, end: nat,
                                     args: seq<Expr>, k: nat, past: nat,
                                     f: Frame, rest: Stack, mem: Memory)
    returns (n: nat, f': Frame)
    requires Setting(p, gs, limit, mem) && SameArgs(gs, limit, ty, args) && 1 <= k < |args|
    requires forall i :: 0 <= i < |args| ==> Generates(gs, limit, args[i])
    requires Collecting(s, end) && Before(s, end, past) && past <= s.cur
    requires At(s, f) && Installed(p, f.fn, EmitIn(gs, limit, s, ty, end, args, k))
    ensures Gives(p, n, EmitIn(gs, limit, s, ty, end, args, k), Reg(end, 0), f, f', rest, mem,
                  EvalIn(gs, limit, args, k, mem))
    decreases limit, In(args), 1, |args| - k, 0
  {
    hide *;
    AtReady(s, f);
    SameGenerate(gs, limit, ty, args, k);
    UnfoldInEval(gs, limit, args, k, mem);
    UnfoldInEmit(gs, limit, s, ty, end, args, k);
    var e := Cmp(Eq, args[0], args[k]);
    var a := Emit(gs, limit, s, args[0]);
    var b := Emit(gs, limit, a.0, args[k]);
    CollectingReady(b.0, end);
    var c := EmitCmp(b.0, ty, Eq, a.1, b.1);
    var u := InCond(b.0, ty, end, a.1, b.1);
    var r := InTest(b.0, ty, end, a.1, b.1);
    var q := EmitIn(gs, limit, r, ty, end, args, k + 1);
    InCondPlace(s, b.0, ty, end, a.1, b.1, past);
    CollectsJoins(end, u.0, r, q);
    JoinsLater(end, r, q);
    JoinsLater(end, u.0, q);
    EarlierLater(p, f.fn, r, q);
    EarlierLater(p, f.fn, u.0, q);
    EarlierLater(p, f.fn, c.0, u.0);
    var v := Eval(gs, limit, e, mem);
    n, f' := SimComparison(p, gs, limit, s, In(args), Eq, args[0], args[k], f, rest, mem);
    if v.Some? {
      var (x, m) := v.value;
      TypedNext(p, gs, limit, e, mem);
      var n1, f1 := n, f';
      Landed(p, n1, c.0, c.1, f, f1, rest, mem, x, m);
      InCondAt(b.0, ty, end, a.1, b.1, f1);
      SimInBranch(p, b.0, ty, end, a.1, b.1, f1, rest, m, x.b);
      if x.b {
        f' := SimToJoin(p, q, end, u.0, 1, f1, f1, rest, m, c.1, x);
        n := Chain(p, n1, 2, c.0, c.1, q, Reg(end, 0), f, f1, f', rest, mem, x, m, Some((x, m)));
      } else {
        var g := Goto(f1, r.cur);
        CollectingReady(r, end);
        var n2, f2 := SimIn(p, gs, limit, r, ty, end, args, k + 1, |c.0.blocks|, g, rest, m);
        StepInto(p, 1, n2, q, Reg(end, 0), f1, g, f2, rest, m, EvalIn(gs, limit, args, k + 1, m));
        n := Chain(p, n1, 1 + n2, c.0, c.1, q, Reg(end, 0), f, f1, f2, rest, mem, x, m,
                   EvalIn(gs, limit, args, k + 1, m));
        f' := f2;
      }
    } else {
      StuckAnywhere(p, n, c.0, c.1, q, Reg(end, 0), f, f', rest, mem);
    }
  }

  lemma UnfoldIn(gs: seq<Global>, limit: nat, s: Fn, args: seq<Expr>, mem: Memory)
    requires Ready(s) && Generates(gs, limit, In(args)) && |args| >= 2
    ensures forall i :: 0 <= i < |args| ==> Generates(gs, limit, args[i])
    ensures Resolve(gs, limit, args[0]).Some?
    ensures var ty := Resolve(gs, limit, args[0]).value;
            && SameArgs(gs, limit, ty, args)
            && Emit(gs, limit, s, In(args)) == (EmitIn(gs, limit, OpenJoin(s), ty, |s.blocks|, args, 1),
                                                Reg(|s.blocks|, 0))
    ensures Eval(gs, limit, In(args), mem) == EvalIn(gs, limit, args, 1, mem)
  {
    hide EmitIn, OpenJoin, EvalIn;
  }

  lemma {:induction false} SimInFirst(p: Program, gs: seq<Global>, limit: nat, s: Fn, args: seq<Expr>, f: Frame,
                                      rest: Stack, mem: Memory)
    returns (n: nat, f': Frame)
    requires Setting(p, gs, limit, mem) && Generates(gs, limit, In(args)) && |args| >= 2
    requires At(s, f) && Installed(p, f.fn, Emit(gs, limit, s, In(args)).0)
    ensures var e := In(args);
            Gives(p, n, Emit(gs, limit, s, e).0, Emit(gs, limit, s, e).1, f, f', rest, mem, Eval(gs, limit, e, mem))
    decreases limit, In(args), 3
  {
    hide *;
    AtReady(s, f);
    UnfoldIn(gs, limit, s, args, mem);
    OpenJoinAt(s, f);
    n, f' := SimIn(p, gs, limit, OpenJoin(s), Resolve(gs, limit, args[0]).value, |s.blocks|, args, 1, 0, f, rest, mem);
  }
}
