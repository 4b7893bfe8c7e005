/**
 Type resolution is sound for direct evaluation: a defined value has the resolved type.
 */
module Typing {
  import opened Basics
  import opened IR
  import opened Expressions

  // Every initialised global holds a value of its type.
  ghost predicate MemTyped(gs: seq<Global>, mem: Memory) {
    forall g :: g in mem.vals && g < |gs| ==> GlobalType(gs, g) == Some(TypeOf(mem.vals[g]))
  }

  lemma {:induction false} ResolveSound(gs: seq<Global>, limit: nat, e: Expr, mem: Memory)
    requires MemTyped(gs, mem) && Resolve(gs, limit, e).Some? && Eval(gs, limit, e, mem).Some?
    ensures TypeOf(Eval(gs, limit, e, mem).value.0) == Resolve(gs, limit, e).value
    ensures MemTyped(gs, Eval(gs, limit, e, mem).value.1)
    decreases limit, e, 1
  {
    match e
    case Lit(_) =>
    case Global(g) =>
      if gs[g].Lazy? && g !in mem.done {
        ResolveSound(gs, g, gs[g].def, mem);
      }
    case Arith(op, args) =>
      var t := Resolve(gs, limit, args[0]).value;
      if Unit(op).Some? {
        ArithSound(gs, limit, t, op, Unit(op).value, args, mem);
      } else {
        ResolveSound(gs, limit, args[0], mem);
        var r := Eval(gs, limit, args[0], mem).value;
        ArithSound(gs, limit, t, op, r.0, args[1..], r.1);
      }
    case Cmp(_, x, y) =>
      ResolveSound(gs, limit, x, mem);
      ResolveSound(gs, limit, y, Eval(gs, limit, x, mem).value.1);
    case Logic(conj, args) =>
      ResolveSound(gs, limit, args[0], mem);
      var r := Eval(gs, limit, args[0], mem).value;
      LogicSound(gs, limit, conj, r.0, args[1..], r.1);
    case Negate(x) => ResolveSound(gs, limit, x, mem);
    case In(args) =>
      if |args| >= 2 {
        InSound(gs, limit, args, 1, mem);
      }
    case If(c, t, f) =>
      ResolveSound(gs, limit, c, mem);
      var r := Eval(gs, limit, c, mem).value;
      if r.0.b {
        ResolveSound(gs, limit, t, r.1);
      } else {
        ResolveSound(gs, limit, f, r.1);
      }
  }

  lemma {:induction false} ArithSound(gs: seq<Global>, limit: nat, t: Type, op: ArithOp, v: Value, args: seq<Expr>,
                                      mem: Memory)
    requires MemTyped(gs, mem) && (args == [] ==> TypeOf(v) == t)
    requires forall i :: 0 <= i < |args| ==> Resolve(gs, limit, args[i]) == Some(t)
    requires EvalArith(gs, limit, op, v, args, mem).Some?
    ensures TypeOf(EvalArith(gs, limit, op, v, args, mem).value.0) == t
    ensures MemTyped(gs, EvalArith(gs, limit, op, v, args, mem).value.1)
    decreases limit, args, 0
  {
    if args != [] {
      ResolveSound(gs, limit, args[0], mem);
      var r := Eval(gs, limit, args[0], mem).value;
      ArithSound(gs, limit, t, op, ArithValue(op, v, r.0).value, args[1..], r.1);
    }
  }

  lemma {:induction false} LogicSound(gs: seq<Global>, limit: nat, conj: bool, v: Value, args: seq<Expr>, mem: Memory)
    requires MemTyped(gs, mem) && v.B?
    requires forall i :: 0 <= i < |args| ==> Resolve(gs, limit, args[i]) == Some(TBool)
    requires EvalLogic(gs, limit, conj, v, args, mem).Some?
    ensures EvalLogic(gs, limit, conj, v, args, mem).value.0.B?
    ensures MemTyped(gs, EvalLogic(gs, limit, conj, v, args, mem).value.1)
    decreases limit, args, 0
  {
    if args != [] && v.b == conj {
      ResolveSound(gs, limit, args[0], mem);
      var r := Eval(gs, limit, args[0], mem).value;
      LogicSound(gs, limit, conj, r.0, args[1..], r.1);
    }
  }

  lemma {:induction false} InSound(gs: seq<Global>, limit: nat, args: seq<Expr>, k: nat, mem: Memory)
    requires MemTyped(gs, mem) && 1 <= k <= |args|
    requires forall i :: 0 <= i < |args| ==> Resolve(gs, limit, args[i]).Some?
    requires EvalIn(gs, limit, args, k, mem).Some?
    ensures EvalIn(gs, limit, args, k, mem).value.0.B?
    ensures MemTyped(gs, EvalIn(gs, limit, args, k, mem).value.1)
    decreases limit, args, |args| - k
  {
    if k < |args| {
      ResolveSound(gs, limit, args[0], mem);
      var r := Eval(gs, limit, args[0], mem).value;
      ResolveSound(gs, limit, args[k], r.1);
      var q := Eval(gs, limit, args[k], r.1).value;
      var c := CmpResult(Eq, r.0, q).value;
      if c.0 != B(true) {
        InSound(gs, limit, args, k + 1, c.1);
      }
    }
  }
}
