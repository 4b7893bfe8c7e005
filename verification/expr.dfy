/**
 Expressions over int and bool: literals, global references, arithmetic, comparison, boolean connectives,
 membership and the conditional; their type resolution; and their direct left-to-right evaluation, which
 knows nothing of blocks and registers.
 */
module Expressions {
  import opened Basics
  import opened IR

  datatype Type = TInt | TBool

  datatype ArithOp = Plus | Minus | Times | Divide | Modulo | Min | Max

  datatype Expr =
    | Lit(v: Value)
    | Global(g: nat)
    | Arith(op: ArithOp, args: seq<Expr>)
    | Cmp(p: Predicate, x: Expr, y: Expr)
    | Logic(conj: bool, args: seq<Expr>)
    | Negate(x: Expr)
    | In(args: seq<Expr>)
    | If(c: Expr, t: Expr, f: Expr)

  // The operands of an expression.
  function Operands(e: Expr): seq<Expr> {
    match e
    case Lit(_) => []
    case Global(_) => []
    case Arith(_, args) => args
    case Cmp(_, x, y) => [x, y]
    case Logic(_, args) => args
    case Negate(x) => [x]
    case In(args) => args
    case If(c, t, f) => [c, t, f]
  }

  // A global is initialised before the program starts, or lazily from its definition.
  datatype Global = Eager(ty: Type) | Lazy(def: Expr)

  function TypeOf(v: Value): Type {
    if v.I? then TInt else TBool
  }

  // ---------- type resolution ----------

  // The type of e, whose references must be to globals declared before position limit; None when
  // resolution is refused.
  function Resolve(gs: seq<Global>, limit: nat, e: Expr): Option<Type>
    decreases limit, e
  {
    match e
    case Lit(v) => Some(TypeOf(v))
    case Global(g) =>
      if g >= limit || g >= |gs| then None
      else if gs[g].Eager? then Some(gs[g].ty)
      else Resolve(gs, g, gs[g].def)
    case Arith(_, args) =>
      if args == [] then None
      else
        var t := Resolve(gs, limit, args[0]);
        if t.Some? && forall i :: 0 <= i < |args| ==> Resolve(gs, limit, args[i]) == t then t else None
    case Cmp(_, x, y) =>
      var t := Resolve(gs, limit, x);
      if t.Some? && Resolve(gs, limit, y) == t then Some(TBool) else None
    case Logic(_, args) =>
      if args != [] && forall i :: 0 <= i < |args| ==> Resolve(gs, limit, args[i]) == Some(TBool) then Some(TBool)
      else None
    case Negate(x) => if Resolve(gs, limit, x) == Some(TBool) then Some(TBool) else None
    case In(args) =>
      if args == [] then Some(TBool)
      else
        var t := Resolve(gs, limit, args[0]);
        if t.Some? && forall i :: 0 <= i < |args| ==> Resolve(gs, limit, args[i]) == t then Some(TBool) else None
    case If(c, t, f) =>
      var ty := Resolve(gs, limit, t);
      if Resolve(gs, limit, c) == Some(TBool) && ty.Some? && Resolve(gs, limit, f) == ty then ty else None
  }

  function GlobalType(gs: seq<Global>, g: nat): Option<Type>
    requires g < |gs|
  {
    if gs[g].Eager? then Some(gs[g].ty) else Resolve(gs, g, gs[g].def)
  }

  // Resolution accepts arithmetic on any one type; the code generator then refuses all but int.
  predicate Generates(gs: seq<Global>, limit: nat, e: Expr)
    decreases e
  {
    && Resolve(gs, limit, e).Some?
    && match e
       case Lit(_) => true
       case Global(_) => true
       case Arith(_, args) =>
         Resolve(gs, limit, e) == Some(TInt) && forall i :: 0 <= i < |args| ==> Generates(gs, limit, args[i])
       case Cmp(_, x, y) => Generates(gs, limit, x) && Generates(gs, limit, y)
       case Logic(_, args) => forall i :: 0 <= i < |args| ==> Generates(gs, limit, args[i])
       case Negate(x) => Generates(gs, limit, x)
       // with fewer than two operands nothing is compiled
       case In(args) => |args| < 2 || forall i :: 0 <= i < |args| ==> Generates(gs, limit, args[i])
       case If(c, t, f) => Generates(gs, limit, c) && Generates(gs, limit, t) && Generates(gs, limit, f)
  }

  // Every lazy definition refers to earlier globals only and can be compiled.
  predicate Declared(gs: seq<Global>) {
    forall g :: 0 <= g < |gs| && gs[g].Lazy? ==> Generates(gs, g, gs[g].def)
  }

  // ---------- direct evaluation ----------

  // Division by zero acts as division by the largest integer; the one overflowing division is undefined.
  function ArithValue(op: ArithOp, a: Value, b: Value): Option<Value> {
    if !(a.I? && b.I?) then None
    else
      var x, y := a.n, b.n;
      var d := if y == 0 then INT64_MAX else y;
      match op
      case Plus => Some(I(Wrap(x + y)))
      case Minus => Some(I(Wrap(x - y)))
      case Times => Some(I(Wrap(x * y)))
      case Divide => if x == INT64_MIN && d == -1 then None else Some(I(TDiv(x, d)))
      case Modulo => if x == INT64_MIN && d == -1 then None else Some(I(TRem(x, d)))
      case Min => Some(if x < y then a else b)
      case Max => Some(if x > y then a else b)
  }

  function Rank(b: bool): int {
    if b then 1 else 0
  }

  function CmpValue(p: Predicate, a: Value, b: Value): Option<bool> {
    match (a, b)
    case (I(x), I(y)) => Some(Compare(p, x, y))
    case (B(x), B(y)) => Some(Compare(p, Rank(x), Rank(y)))
    case _ => None
  }

  // Sum and product start from their unit, the others from their first operand.
  function Unit(op: ArithOp): Option<Value> {
    match op
    case Plus => Some(I(0))
    case Times => Some(I(1))
    case _ => None
  }

  // The value of e and the memory after it; None when evaluation is undefined.
  function Eval(gs: seq<Global>, limit: nat, e: Expr, mem: Memory): Option<(Value, Memory)>
    decreases limit, e, 1
  {
    match e
    case Lit(v) => Some((v, mem))
    case Global(g) =>
      if g >= limit || g >= |gs| then None
      else if gs[g].Lazy? && g !in mem.done then
        var r := Eval(gs, g, gs[g].def, mem);
        if r.None? then None else ReadGlobal(g, Remember(g, r.value.0, r.value.1))
      else ReadGlobal(g, mem)
    case Arith(op, args) =>
      if Unit(op).Some? then EvalArith(gs, limit, op, Unit(op).value, args, mem)
      else if args == [] then None
      else
        var r := Eval(gs, limit, args[0], mem);
        if r.None? then None else EvalArith(gs, limit, op, r.value.0, args[1..], r.value.1)
    case Cmp(p, x, y) =>
      var r := Eval(gs, limit, x, mem);
      if r.None? then None
      else
        var q := Eval(gs, limit, y, r.value.1);
        if q.None? then None else CmpResult(p, r.value.0, q.value)
    case Logic(conj, args) =>
      if args == [] then None
      else
        var r := Eval(gs, limit, args[0], mem);
        if r.None? then None else EvalLogic(gs, limit, conj, r.value.0, args[1..], r.value.1)
    case Negate(x) =>
      var r := Eval(gs, limit, x, mem);
      if r.None? || !r.value.0.B? then None else Some((B(!r.value.0.b), r.value.1))
    case In(args) =>
      if |args| < 2 then Some((B(false), mem)) else EvalIn(gs, limit, args, 1, mem)
    case If(c, t, f) =>
      var r := Eval(gs, limit, c, mem);
      if r.None? || !r.value.0.B? then None
      else if r.value.0.b then Eval(gs, limit, t, r.value.1)
      else Eval(gs, limit, f, r.value.1)
  }

  function ReadGlobal(g: nat, mem: Memory): Option<(Value, Memory)> {
    if g in mem.vals then Some((mem.vals[g], mem.(log := mem.log + [Loaded(g, mem.vals[g])]))) else None
  }

  function Remember(g: nat, v: Value, mem: Memory): Memory {
    mem.(vals := mem.vals[g := v], log := mem.log + [Stored(g, v)], done := mem.done + {g})
  }

  function EvalArith(gs: seq<Global>, limit: nat, op: ArithOp, v: Value, args: seq<Expr>, mem: Memory)
    : Option<(Value, Memory)>
    decreases limit, args, 0
  {
    if args == [] then Some((v, mem))
    else
      var r := Eval(gs, limit, args[0], mem);
      if r.None? then None
      else
        var w := ArithValue(op, v, r.value.0);
        if w.None? then None else EvalArith(gs, limit, op, w.value, args[1..], r.value.1)
  }

  function CmpResult(p: Predicate, a: Value, b: (Value, Memory)): Option<(Value, Memory)> {
    var c := CmpValue(p, a, b.0);
    if c.None? then None else Some((B(c.value), b.1))
  }

  // Stops at the first operand that decides the result.
  function EvalLogic(gs: seq<Global>, limit: nat, conj: bool, v: Value, args: seq<Expr>, mem: Memory)
    : Option<(Value, Memory)>
    decreases limit, args, 0
  {
    if args == [] then Some((v, mem))
    else if !v.B? then None
    else if v.b != conj then Some((v, mem))
    else
      var r := Eval(gs, limit, args[0], mem);
      if r.None? || !r.value.0.B? then None else EvalLogic(gs, limit, conj, r.value.0, args[1..], r.value.1)
  }

  // Compares args[0] with args[k], args[k+1], ... up to the first match. The subject is evaluated anew for
  // every candidate that is tried.
  function EvalIn(gs: seq<Global>, limit: nat, args: seq<Expr>, k: nat, mem: Memory): Option<(Value, Memory)>
    requires 1 <= k <= |args|
    decreases limit, args, |args| - k
  {
    if k == |args| then Some((B(false), mem))
    else
      var r := Eval(gs, limit, args[0], mem);
      if r.None? then None
      else
        var q := Eval(gs, limit, args[k], r.value.1);
        if q.None? then None
        else
          var c := CmpResult(Eq, r.value.0, q.value);
          if c.None? || c.value.0 == B(true) then c else EvalIn(gs, limit, args, k + 1, c.value.1)
  }
}
