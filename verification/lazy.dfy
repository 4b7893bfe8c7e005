/**
 Lazily initialised globals: call by need agrees with evaluating every definition afresh at each use.
 */
module LazyGlobals {
  import opened Basics
  import opened IR
  import opened Expressions
  import opened Typing
  import opened CodeGen
  import opened WholePrograms

  // ---------- evaluation without memory ----------

  // The value of e when every use of a lazy global evaluates its definition; base gives the other globals.
  function Pure(gs: seq<Global>, base: map<nat, Value>, limit: nat, e: Expr): Option<Value>
    decreases limit, e, 1
  {
    match e
    case Lit(v) => Some(v)
    case Global(g) =>
      if g >= limit || g >= |gs| then None
      else if gs[g].Lazy? then Pure(gs, base, g, gs[g].def)
      else if g in base then Some(base[g])
      else None
    case Arith(op, args) =>
      if Unit(op).Some? then PureArith(gs, base, limit, op, Unit(op).value, args)
      else if args == [] then None
      else
        var r := Pure(gs, base, limit, args[0]);
        if r.None? then None else PureArith(gs, base, limit, op, r.value, args[1..])
    case Cmp(p, x, y) => PureCmp(p, Pure(gs, base, limit, x), Pure(gs, base, limit, y))
    case Logic(conj, args) =>
      if args == [] then None
      else
        var r := Pure(gs, base, limit, args[0]);
        if r.None? then None else PureLogic(gs, base, limit, conj, r.value, args[1..])
    case Negate(x) =>
      var r := Pure(gs, base, limit, x);
      if r.None? || !r.value.B? then None else Some(B(!r.value.b))
    case In(args) =>
      if |args| < 2 then Some(B(false)) else PureIn(gs, base, limit, args, 1)
    case If(c, t, f) =>
      var r := Pure(gs, base, limit, c);
      if r.None? || !r.value.B? then None
      else if r.value.b then Pure(gs, base, limit, t)
      else Pure(gs, base, limit, f)
  }

  function PureCmp(p: Predicate, a: Option<Value>, b: Option<Value>): Option<Value> {
    if a.None? || b.None? || CmpValue(p, a.value, b.value).None? then None
    else Some(B(CmpValue(p, a.value, b.value).value))
  }

  function PureArith(gs: seq<Global>, base: map<nat, Value>, limit: nat, op: ArithOp, v: Value,
                     args: seq<Expr>): Option<Value>
    decreases limit, args, 0
  {
    if args == [] then Some(v)
    else
      var r := Pure(gs, base, limit, args[0]);
      var w := if r.None? then None else ArithValue(op, v, r.value);
      if w.None? then None else PureArith(gs, base, limit, op, w.value, args[1..])
  }

  function PureLogic(gs: seq<Global>, base: map<nat, Value>, limit: nat, conj: bool, v: Value,
                     args: seq<Expr>): Option<Value>
    decreases limit, args, 0
  {
    if args == [] then Some(v)
    else if !v.B? then None
    else if v.b != conj then Some(v)
    else
      var r := Pure(gs, base, limit, args[0]);
      if r.None? || !r.value.B? then None else PureLogic(gs, base, limit, conj, r.value, args[1..])
  }

  function PureIn(gs: seq<Global>, base: map<nat, Value>, limit: nat, args: seq<Expr>, k: nat): Option<Value>
    requires 1 <= k <= |args|
    decreases limit, args, |args| - k
  {
    if k == |args| then Some(B(false))
    else
      var c := PureCmp(Eq, Pure(gs, base, limit, args[0]), Pure(gs, base, limit, args[k]));
      if c.None? || c == Some(B(true)) then c else PureIn(gs, base, limit, args, k + 1)
  }

  // ---------- memories that agree with it ----------

  // What global g is worth.
  function Worth(gs: seq<Global>, base: map<nat, Value>, g: nat): Option<Value> {
    Pure(gs, base, |gs|, Global(g))
  }

  ghost predicate AtMostOnce(log: seq<Event>) {
    forall i, j :: 0 <= i < j < |log| && log[i].Stored? && log[j].Stored? ==> log[i].g != log[j].g
  }

  ghost predicate Truthful(gs: seq<Global>, base: map<nat, Value>, log: seq<Event>) {
    forall i :: 0 <= i < |log| ==> Worth(gs, base, log[i].g) == Some(log[i].v)
  }

  // The eager globals hold their values, every lazy global whose flag is set holds what it is worth, the log
  // records correct values only, and a definition was evaluated at most once, after which its flag is set.
  ghost predicate Agrees(gs: seq<Global>, base: map<nat, Value>, mem: Memory) {
    && (forall g :: 0 <= g < |gs| && gs[g].Eager? ==>
                      (g in mem.vals <==> g in base) && (g in base ==> mem.vals[g] == base[g]))
    && (forall g :: 0 <= g < |gs| && gs[g].Lazy? && g in mem.done ==>
                      g in mem.vals && Worth(gs, base, g) == Some(mem.vals[g]))
    && AtMostOnce(mem.log) && Truthful(gs, base, mem.log)
    && (forall i :: 0 <= i < |mem.log| && mem.log[i].Stored? ==> mem.log[i].g in mem.done)
  }

  // The memory before the first run, and after the finalizers have cleared flags, agrees.
  lemma ClearedAgrees(gs: seq<Global>, base: map<nat, Value>, mem: Memory, cleared: set<nat>)
    requires Agrees(gs, base, mem)
    ensures Agrees(gs, base, Memory(mem.vals, mem.done - cleared, []))
  {
  }

  lemma ReadAgrees(gs: seq<Global>, base: map<nat, Value>, limit: nat, g: nat, mem: Memory)
    requires Agrees(gs, base, mem) && g < limit <= |gs| && (gs[g].Lazy? ==> g in mem.done)
    ensures match ReadGlobal(g, mem)
            case None => Worth(gs, base, g).None?
            case Some((v, m)) => Worth(gs, base, g) == Some(v) && Agrees(gs, base, m)
  {
    if g in mem.vals {
      var m := ReadGlobal(g, mem).value.1;
      assert m.log == mem.log + [Loaded(g, mem.vals[g])];
    }
  }

  lemma RememberAgrees(gs: seq<Global>, base: map<nat, Value>, g: nat, v: Value, mem: Memory)
    requires Agrees(gs, base, mem) && g < |gs| && gs[g].Lazy? && g !in mem.done && Worth(gs, base, g) == Some(v)
    ensures Agrees(gs, base, Remember(g, v, mem))
  {
    assert Remember(g, v, mem).log == mem.log + [Stored(g, v)];
  }

  lemma InitialAgrees(gs: seq<Global>, base: map<nat, Value>)
    ensures Agrees(gs, base, Memory(base, {}, []))
  {
  }

  // ---------- evaluation agrees ----------

  // r is what evaluation gave from memory mem, v what evaluation without memory gives; only flags of globals
  // below limit were set on the way.
  ghost predicate Matches(gs: seq<Global>, base: map<nat, Value>, limit: nat, mem: Memory,
                          r: Option<(Value, Memory)>, v: Option<Value>)
  {
    match r
    case None => v.None?
    case Some((x, m)) =>
      && v == Some(x) && Agrees(gs, base, m) && mem.done <= m.done && mem.log <= m.log
      && (forall g :: g in m.done && g !in mem.done ==> g < limit)
  }

  lemma {:induction false} EvalIsPure(gs: seq<Global>, base: map<nat, Value>, limit: nat, e: Expr, mem: Memory)
    requires Agrees(gs, base, mem) && limit <= |gs|
    ensures Matches(gs, base, limit, mem, Eval(gs, limit, e, mem), Pure(gs, base, limit, e))
    decreases limit, e, 1
  {
    hide Agrees, Worth;
    match e
    case Lit(v) =>
    case Global(g) =>
      if g < limit {
        LoadIsPure(gs, base, limit, g, mem);
      }
    case Arith(op, args) =>
      if Unit(op).Some? {
        ArithIsPure(gs, base, limit, op, Unit(op).value, args, mem);
      } else if args != [] {
        EvalIsPure(gs, base, limit, args[0], mem);
        var r := Eval(gs, limit, args[0], mem);
        if r.Some? {
          ArithIsPure(gs, base, limit, op, r.value.0, args[1..], r.value.1);
        }
      }
    case Cmp(p, x, y) =>
      EvalIsPure(gs, base, limit, x, mem);
      var r := Eval(gs, limit, x, mem);
      if r.Some? {
        EvalIsPure(gs, base, limit, y, r.value.1);
      }
    case Logic(conj, args) =>
      if args != [] {
        EvalIsPure(gs, base, limit, args[0], mem);
        var r := Eval(gs, limit, args[0], mem);
        if r.Some? {
          LogicIsPure(gs, base, limit, conj, r.value.0, args[1..], r.value.1);
        }
      }
    case Negate(x) => EvalIsPure(gs, base, limit, x, mem);
    case In(args) =>
      if |args| >= 2 {
        InIsPure(gs, base, limit, args, 1, mem);
      }
    case If(c, t, f) =>
      EvalIsPure(gs, base, limit, c, mem);
      var r := Eval(gs, limit, c, mem);
      if r.Some? && r.value.0.B? {
        EvalIsPure(gs, base, limit, if r.value.0.b then t else f, r.value.1);
      }
  }

  lemma {:induction false} LoadIsPure(gs: seq<Global>, base: map<nat, Value>, limit: nat, g: nat, mem: Memory)
    requires Agrees(gs, base, mem) && g < limit <= |gs|
    ensures Matches(gs, base, limit, mem, Eval(gs, limit, Global(g), mem), Pure(gs, base, limit, Global(g)))
    decreases limit, Global(g), 0
  {
    assert Worth(gs, base, g) == Pure(gs, base, limit, Global(g));
    if gs[g].Lazy? && g !in mem.done {
      EvalIsPure(gs, base, g, gs[g].def, mem);
      var r := Eval(gs, g, gs[g].def, mem);
      if r.Some? {
        var (v, m) := r.value;
        assert g !in m.done;
        RememberAgrees(gs, base, g, v, m);
        ReadAgrees(gs, base, limit, g, Remember(g, v, m));
      }
    } else {
      ReadAgrees(gs, base, limit, g, mem);
    }
  }

  lemma {:induction false} ArithIsPure(gs: seq<Global>, base: map<nat, Value>, limit: nat, op: ArithOp, v: Value,
                                       args: seq<Expr>, mem: Memory)
    requires Agrees(gs, base, mem) && limit <= |gs|
    ensures Matches(gs, base, limit, mem, EvalArith(gs, limit, op, v, args, mem),
                    PureArith(gs, base, limit, op, v, args))
    decreases limit, args, 0
  {
    hide Agrees, ArithValue, Worth;
    if args != [] {
      EvalIsPure(gs, base, limit, args[0], mem);
      var r := Eval(gs, limit, args[0], mem);
      if r.Some? && ArithValue(op, v, r.value.0).Some? {
        ArithIsPure(gs, base, limit, op, ArithValue(op, v, r.value.0).value, args[1..], r.value.1);
      }
    }
  }

  lemma {:induction false} LogicIsPure(gs: seq<Global>, base: map<nat, Value>, limit: nat, conj: bool, v: Value,
                                       args: seq<Expr>, mem: Memory)
    requires Agrees(gs, base, mem) && limit <= |gs|
    ensures Matches(gs, base, limit, mem, EvalLogic(gs, limit, conj, v, args, mem),
                    PureLogic(gs, base, limit, conj, v, args))
    decreases limit, args, 0
  {
    hide Agrees, Worth;
    if args != [] && v == B(conj) {
      EvalIsPure(gs, base, limit, args[0], mem);
      var r := Eval(gs, limit, args[0], mem);
      if r.Some? {
        LogicIsPure(gs, base, limit, conj, r.value.0, args[1..], r.value.1);
      }
    }
  }

  lemma {:induction false} InIsPure(gs: seq<Global>, base: map<nat, Value>, limit: nat, args: seq<Expr>, k: nat,
                                    mem: Memory)
    requires Agrees(gs, base, mem) && limit <= |gs| && 1 <= k <= |args|
    ensures Matches(gs, base, limit, mem, EvalIn(gs, limit, args, k, mem), PureIn(gs, base, limit, args, k))
    decreases limit, args, |args| - k
  {
    hide Agrees, Worth;
    if k < |args| {
      EvalIsPure(gs, base, limit, args[0], mem);
      var r := Eval(gs, limit, args[0], mem);
      if r.Some? {
        EvalIsPure(gs, base, limit, args[k], r.value.1);
        var q := Eval(gs, limit, args[k], r.value.1);
        if q.Some? && CmpResult(Eq, r.value.0, q.value) == Some((B(false), q.value.1)) {
          InIsPure(gs, base, limit, args, k + 1, q.value.1);
        }
      }
    }
  }

  // ---------- runs ----------

  // One expression after the other over the same memory; None when one of them is undefined.
  function EvalAll(gs: seq<Global>, es: seq<Expr>, mem: Memory): Option<(seq<Value>, Memory)> {
    if es == [] then Some(([], mem))
    else
      var r := Eval(gs, |gs|, es[0], mem);
      if r.None? then None
      else
        var q := EvalAll(gs, es[1..], r.value.1);
        if q.None? then None else Some(([r.value.0] + q.value.0, q.value.1))
  }

  // In any sequence of evaluations that starts with all flags clear, every definition is evaluated at most once,
  // every read gives what its definition is worth, and every result is that of evaluation without memory.
  lemma {:induction false} CallByNeed(gs: seq<Global>, base: map<nat, Value>, es: seq<Expr>)
    ensures var r := EvalAll(gs, es, Memory(base, {}, []));
            r.Some? ==>
              && AtMostOnce(r.value.1.log) && Truthful(gs, base, r.value.1.log)
              && |r.value.0| == |es|
              && forall i :: 0 <= i < |es| ==> Pure(gs, base, |gs|, es[i]) == Some(r.value.0[i])
    ensures EvalAll(gs, es, Memory(base, {}, [])).None? <==>
            exists i :: 0 <= i < |es| && Pure(gs, base, |gs|, es[i]).None?
  {
    InitialAgrees(gs, base);
    AllPure(gs, base, es, Memory(base, {}, []));
  }

  lemma {:induction false} AllPure(gs: seq<Global>, base: map<nat, Value>, es: seq<Expr>, mem: Memory)
    requires Agrees(gs, base, mem)
    ensures var r := EvalAll(gs, es, mem);
            r.Some? ==>
              && Agrees(gs, base, r.value.1) && |r.value.0| == |es|
              && forall i :: 0 <= i < |es| ==> Pure(gs, base, |gs|, es[i]) == Some(r.value.0[i])
    ensures EvalAll(gs, es, mem).None? <==> exists i :: 0 <= i < |es| && Pure(gs, base, |gs|, es[i]).None?
  {
    hide Agrees;
    if es != [] {
      EvalIsPure(gs, base, |gs|, es[0], mem);
      var r := Eval(gs, |gs|, es[0], mem);
      if r.Some? {
        AllPure(gs, base, es[1..], r.value.1);
        var q := EvalAll(gs, es[1..], r.value.1);
        if q.None? {
          var i :| 0 <= i < |es[1..]| && Pure(gs, base, |gs|, es[1..][i]).None?;
          assert es[i + 1] == es[1..][i];
        } else {
          forall i | 0 <= i < |es| ensures Pure(gs, base, |gs|, es[i]) == Some(([r.value.0] + q.value.0)[i]) {
            if i > 0 {
              assert es[i] == es[1..][i - 1];
            }
          }
        }
      }
    }
  }

  // The two results together: a compiled program with lazy globals, run from clear flags, returns the value its
  // expression has when every definition is evaluated at each use, with no definition evaluated twice.
  lemma CompiledCallByNeed(p: Program, gs: seq<Global>, base: map<nat, Value>, e: Expr)
    requires Declared(gs) && Linked(p, gs) && Generates(gs, |gs|, e) && p.main == CompileBody(gs, e)
    requires MemTyped(gs, Memory(base, {}, []))
    ensures exists n, r ::
              Returns(p, Memory(base, {}, []), n, r) &&
              Matches(gs, base, |gs|, Memory(base, {}, []), r, Pure(gs, base, |gs|, e))
  {
    var mem := Memory(base, {}, []);
    hide *;
    var n := CompiledRun(p, gs, e, mem);
    InitialAgrees(gs, base);
    EvalIsPure(gs, base, |gs|, e, mem);
    var r := Eval(gs, |gs|, e, mem);
    assert Returns(p, mem, n, r) && Matches(gs, base, |gs|, mem, r, Pure(gs, base, |gs|, e));
  }
}
