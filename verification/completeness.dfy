/**
 Type resolution is complete: it refuses only what could go wrong.
 */
module Completeness {
  import opened Basics
  import opened IR
  import opened Expressions

  function Literals(vs: seq<Value>): (es: seq<Expr>)
    ensures |es| == |vs| && forall i :: 0 <= i < |vs| ==> es[i] == Lit(vs[i])
  {
    if vs == [] then [] else [Lit(vs[0])] + Literals(vs[1..])
  }

  // e with literals as its operands.
  function OnValues(e: Expr, vs: seq<Value>): Expr
    requires |vs| == |Operands(e)|
  {
    match e
    case Lit(_) => e
    case Global(_) => e
    case Arith(op, _) => Arith(op, Literals(vs))
    case Cmp(p, _, _) => Cmp(p, Lit(vs[0]), Lit(vs[1]))
    case Logic(conj, _) => Logic(conj, Literals(vs))
    case Negate(_) => Negate(Lit(vs[0]))
    case In(_) => In(Literals(vs))
    case If(_, _, _) => If(Lit(vs[0]), Lit(vs[1]), Lit(vs[2]))
  }

  // The values have the types of the operands.
  ghost predicate Fitting(tys: seq<Type>, vs: seq<Value>) {
    |vs| == |tys| && forall i :: 0 <= i < |vs| ==> TypeOf(vs[i]) == tys[i]
  }

  // On all values of these types, e has a value of type ty.
  ghost predicate AlwaysHas(e: Expr, tys: seq<Type>, ty: Type)
    requires |tys| == |Operands(e)|
  {
    forall vs: seq<Value>, mem: Memory :: Fitting(tys, vs) ==> HasOn(e, vs, mem, ty)
  }

  predicate HasOn(e: Expr, vs: seq<Value>, mem: Memory, ty: Type)
    requires |vs| == |Operands(e)|
  {
    var r := Eval([], 0, OnValues(e, vs), mem);
    r.Some? && TypeOf(r.value.0) == ty
  }

  lemma {:induction false} LogicHas(conj: bool, v: Value, vs: seq<Value>, mem: Memory)
    requires v.B? && forall i :: 0 <= i < |vs| ==> vs[i].B?
    ensures var r := EvalLogic([], 0, conj, v, Literals(vs), mem); r.Some? && r.value.0.B?
    decreases |vs|
  {
    if vs != [] && v.b == conj {
      assert Literals(vs)[1..] == Literals(vs[1..]);
      LogicHas(conj, vs[0], vs[1..], mem);
    }
  }

  lemma LiteralValue(v: Value, mem: Memory)
    ensures Eval([], 0, Lit(v), mem) == Some((v, mem))
  {
  }

  lemma {:induction false} InHas(args: seq<Expr>, vs: seq<Value>, k: nat, mem: Memory)
    requires 1 <= k <= |args| && args == Literals(vs)
    requires forall i :: 0 <= i < |vs| ==> TypeOf(vs[i]) == TypeOf(vs[0])
    ensures var r := EvalIn([], 0, args, k, mem); r.Some? && r.value.0.B?
    decreases |args| - k
  {
    hide Eval;
    if k < |args| {
      LiteralValue(vs[0], mem);
      LiteralValue(vs[k], mem);
      InHas(args, vs, k + 1, mem);
    }
  }

  // The first operand that is no bool is reached if all others before it leave the result open.
  lemma {:induction false} LogicLacks(conj: bool, v: Value, vs: seq<Value>, k: nat, mem: Memory)
    requires k < |vs| && vs[k].I? && v == B(conj) && forall i :: 0 <= i < k ==> vs[i] == B(conj)
    ensures EvalLogic([], 0, conj, v, Literals(vs), mem).None?
    decreases k
  {
    assert Literals(vs)[1..] == Literals(vs[1..]);
    if k > 0 {
      LogicLacks(conj, vs[0], vs[1..], k - 1, mem);
    }
  }

  // So is the first candidate of another type if none before it matches the subject.
  lemma {:induction false} InLacks(args: seq<Expr>, vs: seq<Value>, j: nat, k: nat, mem: Memory)
    requires 1 <= j <= k < |vs| && args == Literals(vs) && TypeOf(vs[k]) != TypeOf(vs[0])
    requires forall i :: 1 <= i < k ==> TypeOf(vs[i]) == TypeOf(vs[0]) && vs[i] != vs[0]
    ensures EvalIn([], 0, args, j, mem).None?
    decreases k - j
  {
    hide Eval;
    LiteralValue(vs[0], mem);
    LiteralValue(vs[j], mem);
    if j < k {
      InLacks(args, vs, j + 1, k, mem);
    }
  }

  // The operands of e have the types tys.
  ghost predicate OperandsHave(gs: seq<Global>, limit: nat, e: Expr, tys: seq<Type>) {
    && |tys| == |Operands(e)|
    && forall i :: 0 <= i < |tys| ==> Resolve(gs, limit, Operands(e)[i]) == Some(tys[i])
  }

  // Comparison, connectives, membership and the conditional.
  predicate IsOperation(e: Expr) {
    e.Cmp? || e.Logic? || e.Negate? || e.In? || e.If?
  }

  // One of two values of a type.
  function Sample(ty: Type, b: bool): (v: Value)
    ensures TypeOf(v) == ty
  {
    if ty.TInt? then I(if b then 1 else 0) else B(b)
  }

  function Samples(tys: seq<Type>, b: bool): (vs: seq<Value>)
    ensures Fitting(tys, vs) && forall i :: 0 <= i < |tys| ==> vs[i] == Sample(tys[i], b)
  {
    if tys == [] then [] else [Sample(tys[0], b)] + Samples(tys[1..], b)
  }

  // The first type that differs from ty.
  lemma {:induction false} FirstOther(tys: seq<Type>, ty: Type) returns (k: nat)
    requires exists i :: 0 <= i < |tys| && tys[i] != ty
    ensures k < |tys| && tys[k] != ty && forall i :: 0 <= i < k ==> tys[i] == ty
  {
    k := 0;
    if tys[0] == ty {
      k := FirstOther(tys[1..], ty);
      k := k + 1;
    }
  }

  lemma LogicRefused(conj: bool, args: seq<Expr>, tys: seq<Type>)
    requires |args| == |tys| && (tys != [] ==> exists i :: 0 <= i < |tys| && tys[i] != TBool)
    ensures !AlwaysHas(Logic(conj, args), tys, TBool)
  {
    hide HasOn, EvalLogic;
    var e, vs, mem := Logic(conj, args), Samples(tys, conj), Memory(map[], {}, []);
    OnLiterals(e, vs, mem, TBool);
    if tys != [] {
      var k := FirstOther(tys, TBool);
      if k > 0 {
        LogicLacks(conj, vs[0], vs[1..], k - 1, mem);
      } else {
        NotBoolFirst(conj, vs[0], vs[1..], mem);
      }
    }
    assert !HasOn(e, vs, mem, TBool);
  }

  lemma NotBoolFirst(conj: bool, v: Value, vs: seq<Value>, mem: Memory)
    requires v.I?
    ensures var r := EvalLogic([], 0, conj, v, Literals(vs), mem); r.None? || r.value.0.I?
  {
  }

  // Literals evaluate to themselves.
  lemma OnLiterals(e: Expr, vs: seq<Value>, mem: Memory, ty: Type)
    requires |vs| == |Operands(e)|
    ensures e.Cmp? ==> HasOn(e, vs, mem, ty) == (TypeOf(vs[0]) == TypeOf(vs[1]) && ty.TBool?)
    ensures e.Logic? ==>
              HasOn(e, vs, mem, ty)
              == (vs != [] && var r := EvalLogic([], 0, e.conj, vs[0], Literals(vs[1..]), mem);
                           r.Some? && TypeOf(r.value.0) == ty)
    ensures e.Negate? ==> HasOn(e, vs, mem, ty) == (vs[0].B? && ty.TBool?)
    ensures e.In? ==>
              HasOn(e, vs, mem, ty)
              == if |vs| < 2 then ty.TBool?
              else var r := EvalIn([], 0, Literals(vs), 1, mem); r.Some? && TypeOf(r.value.0) == ty
    ensures e.If? ==> HasOn(e, vs, mem, ty) == (vs[0].B? && TypeOf(if vs[0].b then vs[1] else vs[2]) == ty)
  {
    match e
    case Logic(_, _) =>
      if vs != [] {
        assert Literals(vs)[1..] == Literals(vs[1..]);
        assert Eval([], 0, Literals(vs)[0], mem) == Some((vs[0], mem));
      }
    case If(_, _, _) =>
      assert forall i :: 0 <= i < 3 ==> Eval([], 0, Lit(vs[i]), mem) == Some((vs[i], mem));
    case Cmp(_, _, _) =>
      assert forall i :: 0 <= i < 2 ==> Eval([], 0, Lit(vs[i]), mem) == Some((vs[i], mem));
    case Negate(_) => LiteralValue(vs[0], mem);
    case _ =>
  }

  lemma AcceptedHas(gs: seq<Global>, limit: nat, e: Expr, tys: seq<Type>, ty: Type, vs: seq<Value>, mem: Memory)
    requires IsOperation(e) && OperandsHave(gs, limit, e, tys) && Resolve(gs, limit, e) == Some(ty)
    requires Fitting(tys, vs)
    ensures HasOn(e, vs, mem, ty)
  {
    hide Eval, HasOn, EvalLogic;
    OnLiterals(e, vs, mem, ty);
    match e
    case Cmp(_, x, y) =>
      assert Operands(e)[0] == x && Operands(e)[1] == y;
    case Logic(conj, args) =>
      LogicHas(conj, vs[0], vs[1..], mem);
    case Negate(x) =>
      assert Operands(e)[0] == x;
    case In(args) =>
      if |args| >= 2 {
        InHas(Literals(vs), vs, 1, mem);
      }
    case If(c, t, f) =>
      assert Operands(e)[0] == c && Operands(e)[1] == t && Operands(e)[2] == f;
  }

  // Values of which none equals the first one.
  lemma Unmatched(tys: seq<Type>) returns (vs: seq<Value>)
    requires tys != []
    ensures Fitting(tys, vs) && forall i :: 1 <= i < |vs| ==> vs[i] != vs[0]
  {
    var rest := Samples(tys[1..], true);
    vs := [Sample(tys[0], false)] + rest;
    forall i | 1 <= i < |tys| ensures vs[i] == Sample(tys[i], true) {
      assert vs[i] == rest[i - 1] && tys[1..][i - 1] == tys[i];
    }
  }

  lemma InRefused(args: seq<Expr>, tys: seq<Type>)
    requires |args| == |tys| && exists i :: 0 <= i < |tys| && tys[i] != tys[0]
    ensures !AlwaysHas(In(args), tys, TBool)
  {
    hide *;
    var k := FirstOther(tys, tys[0]);
    var vs := Unmatched(tys);
    FittingAt(tys, vs);
    var mem := Memory(map[], {}, []);
    InLacks(Literals(vs), vs, 1, k, mem);
    InNotHas(args, tys, vs, mem);
  }

  lemma FittingAt(tys: seq<Type>, vs: seq<Value>)
    requires Fitting(tys, vs)
    ensures |vs| == |tys| && forall i :: 0 <= i < |vs| ==> TypeOf(vs[i]) == tys[i]
  {
  }

  lemma InNotHas(args: seq<Expr>, tys: seq<Type>, vs: seq<Value>, mem: Memory)
    requires |args| == |tys| >= 2 && Fitting(tys, vs) && EvalIn([], 0, Literals(vs), 1, mem).None?
    ensures !AlwaysHas(In(args), tys, TBool)
  {
    hide HasOn, EvalIn, Eval, Literals;
    OnLiterals(In(args), vs, mem, TBool);
    assert !HasOn(In(args), vs, mem, TBool);
  }

  lemma IfRefused(c: Expr, t: Expr, f: Expr, tys: seq<Type>, ty: Type)
    requires |tys| == 3 && (tys[0].TInt? || tys[1] != ty || tys[2] != ty)
    ensures !AlwaysHas(If(c, t, f), tys, ty)
  {
    hide HasOn;
    var e, mem := If(c, t, f), Memory(map[], {}, []);
    var vs := Samples(tys, tys[1] != ty);
    OnLiterals(e, vs, mem, ty);
    assert !HasOn(e, vs, mem, ty);
  }

  // An operation whose operands resolve is accepted exactly if it has a value of its type whatever its operands are.
  lemma ResolvesExactly(gs: seq<Global>, limit: nat, e: Expr, tys: seq<Type>, ty: Type)
    requires IsOperation(e) && OperandsHave(gs, limit, e, tys)
    ensures Resolve(gs, limit, e) == Some(ty) <==> (e.If? || ty.TBool?) && AlwaysHas(e, tys, ty)
  {
    hide Eval, HasOn;
    if Resolve(gs, limit, e) == Some(ty) {
      forall vs: seq<Value>, mem: Memory | Fitting(tys, vs) ensures HasOn(e, vs, mem, ty) {
        AcceptedHas(gs, limit, e, tys, ty, vs, mem);
      }
    } else if e.If? || ty.TBool? {
      match e
      case Cmp(_, _, _) => SimpleRefused(e, tys);
      case Negate(_) => SimpleRefused(e, tys);
      case Logic(conj, args) => LogicRefused(conj, args, tys);
      case In(args) => InRefused(args, tys);
      case If(c, t, f) => IfRefused(c, t, f, tys, ty);
    }
  }

  lemma SimpleRefused(e: Expr, tys: seq<Type>)
    requires |tys| == |Operands(e)|
    requires (e.Cmp? && tys[0] != tys[1]) || (e.Negate? && tys[0].TInt?)
    ensures !AlwaysHas(e, tys, TBool)
  {
    var vs, mem := Samples(tys, true), Memory(map[], {}, []);
    assert !HasOn(e, vs, mem, TBool);
  }

  // Any two operands of one type can be compared, in any way.
  lemma ComparisonResolves(gs: seq<Global>, limit: nat, p: Predicate, x: Expr, y: Expr)
    ensures Resolve(gs, limit, Cmp(p, x, y)) == Some(TBool)
       <==> Resolve(gs, limit, x).Some? && Resolve(gs, limit, x) == Resolve(gs, limit, y)
  {
  }

  // Some arithmetic that would be compiled for e is on bools.
  predicate BoolArithmetic(gs: seq<Global>, limit: nat, e: Expr)
    decreases e
  {
    || (e.Arith? && Resolve(gs, limit, e) == Some(TBool))
    || (!(e.In? && |Operands(e)| < 2) &&
        (SmallerOperands(e); exists i :: 0 <= i < |Operands(e)| && BoolArithmetic(gs, limit, Operands(e)[i])))
  }

  lemma SmallerOperands(e: Expr)
    ensures forall i :: 0 <= i < |Operands(e)| ==> Operands(e)[i] < e
  {
  }

  // What resolves is generated unless there is arithmetic on bools.
  lemma {:induction false} GeneratesExactly(gs: seq<Global>, limit: nat, e: Expr)
    requires Resolve(gs, limit, e).Some?
    ensures Generates(gs, limit, e) <==> !BoolArithmetic(gs, limit, e)
    decreases e
  {
    hide Resolve, Generates, BoolArithmetic;
    SmallerOperands(e);
    OperandsResolve(gs, limit, e);
    GeneratesStep(gs, limit, e);
    BoolArithmeticStep(gs, limit, e);
    var ty := Resolve(gs, limit, e).value;
    assert ty.TInt? || ty.TBool?;
    if !(e.In? && |Operands(e)| < 2) {
      forall i | 0 <= i < |Operands(e)|
        ensures Generates(gs, limit, Operands(e)[i]) <==> !BoolArithmetic(gs, limit, Operands(e)[i])
      {
        GeneratesExactly(gs, limit, Operands(e)[i]);
      }
    }
  }

  lemma OperandsResolve(gs: seq<Global>, limit: nat, e: Expr)
    requires Resolve(gs, limit, e).Some?
    ensures forall i :: 0 <= i < |Operands(e)| ==> Resolve(gs, limit, Operands(e)[i]).Some?
  {
  }

  // One level of an expression that resolves.
  lemma GeneratesStep(gs: seq<Global>, limit: nat, e: Expr)
    requires Resolve(gs, limit, e).Some?
    ensures Generates(gs, limit, e)
       <==> (e.Arith? ==> Resolve(gs, limit, e) == Some(TInt)) &&
            ((e.In? && |Operands(e)| < 2) ||
             forall i :: 0 <= i < |Operands(e)| ==> Generates(gs, limit, Operands(e)[i]))
  {
    hide Resolve;
    var es := Operands(e);
    match e
    case Cmp(_, x, y) => assert es[0] == x && es[1] == y;
    case If(c, t, f) => assert es[0] == c && es[1] == t && es[2] == f;
    case Negate(x) => assert es[0] == x;
    case _ =>
  }

  lemma BoolArithmeticStep(gs: seq<Global>, limit: nat, e: Expr)
    ensures BoolArithmetic(gs, limit, e)
       <==> (e.Arith? && Resolve(gs, limit, e) == Some(TBool)) ||
            (!(e.In? && |Operands(e)| < 2) &&
             exists i :: 0 <= i < |Operands(e)| && BoolArithmetic(gs, limit, Operands(e)[i]))
  {
    hide Resolve, Operands;
  }

  // All definitions can be compiled exactly if they resolve, as the analyzer finds, and none has arithmetic on bools.
  lemma DeclaredExactly(gs: seq<Global>)
    ensures Declared(gs)
       <==> forall g :: 0 <= g < |gs| && gs[g].Lazy? ==> GlobalType(gs, g).Some? && !BoolArithmetic(gs, g, gs[g].def)
  {
    hide Resolve, Generates, BoolArithmetic;
    forall g | 0 <= g < |gs| && gs[g].Lazy?
      ensures Generates(gs, g, gs[g].def) <==> GlobalType(gs, g).Some? && !BoolArithmetic(gs, g, gs[g].def)
    {
      GeneratedResolves(gs, g, gs[g].def);
      if Resolve(gs, g, gs[g].def).Some? {
        GeneratesExactly(gs, g, gs[g].def);
      }
    }
  }

  lemma GeneratedResolves(gs: seq<Global>, limit: nat, e: Expr)
    ensures Generates(gs, limit, e) ==> Resolve(gs, limit, e).Some?
  {
    hide Resolve;
  }
}
