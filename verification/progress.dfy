/**
 When direct evaluation has a value: always, except when it reaches the one overflowing division.
 */
module Progress {
  import opened Basics
  import opened IR
  import opened Expressions
  import opened Typing

  // The quotient of the smallest integer and -1 is no 64-bit integer.
  predicate OverflowsAt(op: ArithOp, a: Value, b: Value) {
    (op.Divide? || op.Modulo?) && a == I(INT64_MIN) && b == I(-1)
  }

  // Evaluating e from left to right comes to an overflowing division.
  predicate Overflows(gs: seq<Global>, limit: nat, e: Expr, mem: Memory)
    decreases limit, e, 1
  {
    match e
    case Lit(_) => false
    case Global(g) =>
      g < limit && g < |gs| && gs[g].Lazy? && g !in mem.done && Overflows(gs, g, gs[g].def, mem)
    case Arith(op, args) =>
      if Unit(op).Some? then ArithOverflows(gs, limit, op, Unit(op).value, args, mem)
      else
        && args != []
        && (Overflows(gs, limit, args[0], mem)
            || var r := Eval(gs, limit, args[0], mem);
               r.Some? && ArithOverflows(gs, limit, op, r.value.0, args[1..], r.value.1))
    case Cmp(_, x, y) =>
      || Overflows(gs, limit, x, mem)
      || var r := Eval(gs, limit, x, mem);
         r.Some? && Overflows(gs, limit, y, r.value.1)
    case Logic(conj, args) =>
      && args != []
      && (Overflows(gs, limit, args[0], mem)
          || var r := Eval(gs, limit, args[0], mem);
             r.Some? && LogicOverflows(gs, limit, conj, r.value.0, args[1..], r.value.1))
    case Negate(x) => Overflows(gs, limit, x, mem)
    case In(args) => |args| >= 2 && InOverflows(gs, limit, args, 1, mem)
    case If(c, t, f) =>
      || Overflows(gs, limit, c, mem)
      || var r := Eval(gs, limit, c, mem);
         r.Some? && Overflows(gs, limit, if r.value.0 == B(true) then t else f, r.value.1)
  }

  // v is the value so far.
  predicate ArithOverflows(gs: seq<Global>, limit: nat, op: ArithOp, v: Value, args: seq<Expr>, mem: Memory)
    decreases limit, args, 0
  {
    && args != []
    && (Overflows(gs, limit, args[0], mem)
        || var r := Eval(gs, limit, args[0], mem);
           && r.Some?
           && (OverflowsAt(op, v, r.value.0)
               || var w := ArithValue(op, v, r.value.0);
                  w.Some? && ArithOverflows(gs, limit, op, w.value, args[1..], r.value.1)))
  }

  predicate LogicOverflows(gs: seq<Global>, limit: nat, conj: bool, v: Value, args: seq<Expr>, mem: Memory)
    decreases limit, args, 0
  {
    && args != [] && v == B(conj)
    && (Overflows(gs, limit, args[0], mem)
        || var r := Eval(gs, limit, args[0], mem);
           r.Some? && LogicOverflows(gs, limit, conj, r.value.0, args[1..], r.value.1))
  }

  // Up to the first candidate that matches the subject.
  predicate InOverflows(gs: seq<Global>, limit: nat, args: seq<Expr>, k: nat, mem: Memory)
    requires 1 <= k <= |args|
    decreases limit, args, |args| - k
  {
    && k < |args|
    && (Overflows(gs, limit, args[0], mem)
        || var r := Eval(gs, limit, args[0], mem);
           && r.Some?
           && (Overflows(gs, limit, args[k], r.value.1)
               || var q := Eval(gs, limit, args[k], r.value.1);
                  q.Some? && q.value.0 != r.value.0 && InOverflows(gs, limit, args, k + 1, q.value.1)))
  }

  // Globals that are initialised before the program starts, or were since, have a value of their type.
  ghost predicate MemReady(gs: seq<Global>, mem: Memory) {
    && MemTyped(gs, mem)
    && forall g :: 0 <= g < |gs| && (gs[g].Eager? || g in mem.done) ==> g in mem.vals
  }

  // What evaluation of an expression comes to: it has a value exactly if it does not overflow, and memory stays ready.
  ghost predicate Proceeds(gs: seq<Global>, r: Option<(Value, Memory)>, overflows: bool) {
    (r.None? <==> overflows) && (r.Some? ==> MemReady(gs, r.value.1))
  }

  // A generated expression has a value exactly if evaluating it comes to no overflowing division.
  lemma {:induction false} EvalProceeds(gs: seq<Global>, limit: nat, e: Expr, mem: Memory)
    requires Declared(gs) && MemReady(gs, mem) && Generates(gs, limit, e)
    ensures Proceeds(gs, Eval(gs, limit, e, mem), Overflows(gs, limit, e, mem))
    decreases limit, e, 1
  {
    match e
    case Lit(_) =>
    case Global(g) =>
      if gs[g].Lazy? && g !in mem.done {
        EvalProceeds(gs, g, gs[g].def, mem);
        var r := Eval(gs, g, gs[g].def, mem);
        if r.Some? {
          ResolveSound(gs, g, gs[g].def, mem);
        }
      }
    case Arith(op, args) =>
      var t := Resolve(gs, limit, args[0]).value;
      if Unit(op).Some? {
        ArithProceeds(gs, limit, op, Unit(op).value, args, mem);
      } else {
        EvalProceeds(gs, limit, args[0], mem);
        var r := Eval(gs, limit, args[0], mem);
        if r.Some? {
          ResolveSound(gs, limit, args[0], mem);
          ArithProceeds(gs, limit, op, r.value.0, args[1..], r.value.1);
        }
      }
    case Cmp(_, x, y) =>
      EvalProceeds(gs, limit, x, mem);
      var r := Eval(gs, limit, x, mem);
      if r.Some? {
        ResolveSound(gs, limit, x, mem);
        EvalProceeds(gs, limit, y, r.value.1);
        if Eval(gs, limit, y, r.value.1).Some? {
          ResolveSound(gs, limit, y, r.value.1);
        }
      }
    case Logic(conj, args) =>
      EvalProceeds(gs, limit, args[0], mem);
      var r := Eval(gs, limit, args[0], mem);
      if r.Some? {
        ResolveSound(gs, limit, args[0], mem);
        LogicProceeds(gs, limit, conj, r.value.0, args[1..], r.value.1);
      }
    case Negate(x) =>
      EvalProceeds(gs, limit, x, mem);
      if Eval(gs, limit, x, mem).Some? {
        ResolveSound(gs, limit, x, mem);
      }
    case In(args) =>
      if |args| >= 2 {
        InProceeds(gs, limit, args, 1, mem);
      }
    case If(c, t, f) =>
      EvalProceeds(gs, limit, c, mem);
      var r := Eval(gs, limit, c, mem);
      if r.Some? {
        ResolveSound(gs, limit, c, mem);
        EvalProceeds(gs, limit, if r.value.0.b then t else f, r.value.1);
      }
  }

  lemma {:induction false} ArithProceeds(gs: seq<Global>, limit: nat, op: ArithOp, v: Value, args: seq<Expr>,
                                         mem: Memory)
    requires Declared(gs) && MemReady(gs, mem) && v.I?
    requires forall i :: 0 <= i < |args| ==> Generates(gs, limit, args[i]) && Resolve(gs, limit, args[i]) == Some(TInt)
    ensures Proceeds(gs, EvalArith(gs, limit, op, v, args, mem), ArithOverflows(gs, limit, op, v, args, mem))
    decreases limit, args, 0
  {
    if args != [] {
      EvalProceeds(gs, limit, args[0], mem);
      var r := Eval(gs, limit, args[0], mem);
      if r.Some? {
        ResolveSound(gs, limit, args[0], mem);
        var w := ArithValue(op, v, r.value.0);
        if w.Some? {
          ArithProceeds(gs, limit, op, w.value, args[1..], r.value.1);
        }
      }
    }
  }

  lemma {:induction false} LogicProceeds(gs: seq<Global>, limit: nat, conj: bool, v: Value, args: seq<Expr>,
                                         mem: Memory)
    requires Declared(gs) && MemReady(gs, mem) && v.B?
    requires forall i :: 0 <= i < |args| ==> Generates(gs, limit, args[i]) && Resolve(gs, limit, args[i]) == Some(TBool)
    ensures Proceeds(gs, EvalLogic(gs, limit, conj, v, args, mem), LogicOverflows(gs, limit, conj, v, args, mem))
    decreases limit, args, 0
  {
    if args != [] && v.b == conj {
      EvalProceeds(gs, limit, args[0], mem);
      var r := Eval(gs, limit, args[0], mem);
      if r.Some? {
        ResolveSound(gs, limit, args[0], mem);
        LogicProceeds(gs, limit, conj, r.value.0, args[1..], r.value.1);
      }
    }
  }

  lemma {:induction false} InProceeds(gs: seq<Global>, limit: nat, args: seq<Expr>, k: nat, mem: Memory)
    requires Declared(gs) && MemReady(gs, mem) && 1 <= k <= |args|
    requires forall i :: 0 <= i < |args| ==>
                           Generates(gs, limit, args[i]) && Resolve(gs, limit, args[i]) == Resolve(gs, limit, args[0])
    ensures Proceeds(gs, EvalIn(gs, limit, args, k, mem), InOverflows(gs, limit, args, k, mem))
    decreases limit, args, |args| - k
  {
    hide Eval, Overflows;
    if k < |args| {
      EvalProceeds(gs, limit, args[0], mem);
      var r := Eval(gs, limit, args[0], mem);
      if r.Some? {
        ResolveSound(gs, limit, args[0], mem);
        EvalProceeds(gs, limit, args[k], r.value.1);
        var q := Eval(gs, limit, args[k], r.value.1);
        if q.Some? {
          ResolveSound(gs, limit, args[k], r.value.1);
          InProceeds(gs, limit, args, k + 1, q.value.1);
        }
      }
    }
  }
}
