/**
 Whole compiled programs: the shape of finished functions, what a run returns, and lazy globals.
 */
module WholePrograms {
  import opened Basics
  import opened IR
  import opened Expressions
  import opened Building
  import opened CodeGen
  import opened Typing
  import opened Simulation
  import opened Ssa
  import opened Dominance
  import opened Progress
  import opened Correctness
  import Meanings

  // ---------- finished functions ----------

  // Every block ends with one terminator, every phi stands first in its block and lists exactly the block's
  // predecessors, each once, nothing branches to the entry, the body lists every block once, and along every path each
  // register is defined before it is read.
  ghost predicate WellFormed(f: Fn) {
    && Shaped(f) && UsesDefined(f)
  }

  ghost predicate Shaped(f: Fn) {
    && f.blocks != [] && Laid(f)
    && (forall b :: 0 <= b < |f.blocks| ==> TermOk(f, b) && PhiOk(f, b))
    && (forall p: nat :: !Edge(f, p, Entry(f)))
  }

  lemma FreshFacts()
    ensures Ready(FRESH) && NoDangling(FRESH) && Laid(FRESH) && |FRESH.blocks| == 1
  {
    FreshLaid();
    assert forall p: nat, b: nat :: !Edge(FRESH, p, b);
  }

  lemma GrownLaid(n: nat, skip: set<nat>, s0: Fn, s: Fn)
    requires Grown(n, skip, s0, s) && Laid(s0)
    ensures Laid(s)
  {
  }

  lemma FreshGrown(gs: seq<Global>, limit: nat, e: Expr)
    requires Generates(gs, limit, e)
    ensures Ready(FRESH)
    ensures var r := Emit(gs, limit, FRESH, e); Grown(1, {}, FRESH, r.0) && Laid(r.0)
  {
    hide *;
    FreshFacts();
    EmitShape(gs, limit, FRESH, e);
    GrownLaid(1, {}, FRESH, Emit(gs, limit, FRESH, e).0);
  }

  lemma FinishWellFormed(s: Fn, t: Terminator)
    requires Grown(1, {}, FRESH, s) && Laid(s) && (t.Ret? || t.RetVoid?)
    ensures Shaped(Finish(s, t)) && Entry(Finish(s, t)) == 0
  {
    var f := Finish(s, t);
    assert forall p: nat, b: nat :: !Edge(FRESH, p, b);
    assert forall p: nat, b: nat :: Edge(f, p, b) <==> Edge(s, p, b);
    forall b | 0 <= b < |f.blocks| ensures PhiOk(f, b) {
      if b >= 1 {
        PhiKept(s, f, b);
      }
    }
    forall b | 0 <= b < |f.blocks| ensures TermOk(f, b) {
      assert b != s.cur ==> TermOk(s, b);
    }
  }

  lemma BodyWellFormed(gs: seq<Global>, e: Expr)
    requires Generates(gs, |gs|, e)
    ensures WellFormed(CompileBody(gs, e))
  {
    hide Emit, Grown, Laid, Generates, Shaped, Finish, Scoped, UsesDefined, Entry;
    FreshGrown(gs, |gs|, e);
    var r := Emit(gs, |gs|, FRESH, e);
    FinishWellFormed(r.0, Ret(r.1));
    var a := BodyScoped(gs, e);
    LabelsDefine(CompileBody(gs, e), a);
  }

  lemma InitWellFormed(gs: seq<Global>, g: nat)
    requires g < |gs| && gs[g].Lazy? && Generates(gs, g, gs[g].def)
    ensures WellFormed(CompileInit(gs, g))
  {
    hide Emit, Grown, Generates, Shaped, Finish, Scoped, UsesDefined, Entry;
    FreshGrown(gs, g, gs[g].def);
    var r := Emit(gs, g, FRESH, gs[g].def);
    GrownAppend(1, {}, FRESH, r.0, Store(g, r.1));
    GrownAppend(1, {}, FRESH, Effect(r.0, Store(g, r.1)), StoreDone(g));
    FinishWellFormed(Effect(Effect(r.0, Store(g, r.1)), StoreDone(g)), RetVoid);
    var a := InitScoped(gs, g);
    LabelsDefine(CompileInit(gs, g), a);
  }

  // ---------- runs ----------

  function Start(p: Program, mem: Memory): Config {
    Run(Frame(Main, 0, Entry(p.main), 0, map[]), Empty, mem)
  }

  function Outcome(r: Option<(Value, Memory)>): Config {
    if r.None? then Stuck else Done(r.value.0, r.value.1)
  }

  lemma BodyInstalled(p: Program, gs: seq<Global>, e: Expr)
    requires Generates(gs, |gs|, e) && p.main == CompileBody(gs, e)
    ensures var r := Emit(gs, |gs|, FRESH, e);
            Ready(FRESH) && Ready(r.0) && Installed(p, Main, r.0) && HasFn(p, Main) && p.main == Finish(r.0, Ret(r.1))
    ensures Entry(p.main) == 0 && At(FRESH, Frame(Main, 0, 0, 0, map[]))
  {
    hide Emit, Grown, GrowsFrom, Generates;
    FreshGrown(gs, |gs|, e);
  }

  lemma SimRet(p: Program, s: Fn, o: Operand, n: nat, f: Frame, f': Frame, mem: Memory, r: Option<(Value, Memory)>)
    requires Ready(s) && f.fn == Main && p.main == Finish(s, Ret(o)) && Gives(p, n, s, o, f, f', Empty, mem, r)
    ensures Steps(p, n + 1, Run(f, Empty, mem)) == Outcome(r)
  {
    StepsCompose(p, n, 1, Run(f, Empty, mem));
    if r.Some? {
      SimSeal(p, s, Ret(o), f', Empty, r.value.1);
    } else {
      StuckStays(p, 1);
    }
  }

  // From n steps on, the run of the program has the outcome r.
  ghost predicate Returns(p: Program, mem: Memory, n: nat, r: Option<(Value, Memory)>) {
    forall k :: k >= n ==> Steps(p, k, Start(p, mem)) == Outcome(r)
  }

  // Compiler correctness. A run of the compiled body of e, with the initialisers of all lazy globals linked in,
  // returns the value of direct evaluation with the same effects on memory in the same order; it is stuck
  // exactly when direct evaluation is undefined.
  lemma {:induction false} CompilerCorrect(p: Program, gs: seq<Global>, e: Expr, mem: Memory)
    requires Declared(gs) && Linked(p, gs) && MemTyped(gs, mem) && Generates(gs, |gs|, e) &&
             p.main == CompileBody(gs, e)
    ensures exists n :: Returns(p, mem, n, Eval(gs, |gs|, e, mem))
  {
    hide *;
    var n := CompiledRun(p, gs, e, mem);
  }

  // The compiled sum of integers returns their sum, the compiled product their product, wrapped once.
  lemma SumAndProductRun(p: Program, gs: seq<Global>, sum: bool, args: seq<Expr>, mem: Memory, xs: seq<int64>,
                         after: Memory)
    requires Declared(gs) && Linked(p, gs) && MemTyped(gs, mem)
    requires var e := Arith(if sum then Plus else Times, args); Generates(gs, |gs|, e) && p.main == CompileBody(gs, e)
    requires Meanings.InOrder(gs, |gs|, args, mem, Meanings.Ints(xs), after)
    ensures var n := if sum then Meanings.Sum(xs) else Meanings.Product(xs);
            exists k :: Returns(p, mem, k, Some((I(Wrap(n)), after)))
  {
    hide *;
    if sum {
      Meanings.SumMeans(gs, |gs|, args, mem, xs, after);
    } else {
      Meanings.ProductMeans(gs, |gs|, args, mem, xs, after);
    }
    var k := CompiledRun(p, gs, Arith(if sum then Plus else Times, args), mem);
    assert Returns(p, mem, k, Some((I(Wrap(if sum then Meanings.Sum(xs) else Meanings.Product(xs))), after)));
  }

  lemma CompiledRun(p: Program, gs: seq<Global>, e: Expr, mem: Memory) returns (n: nat)
    requires Declared(gs) && Linked(p, gs) && MemTyped(gs, mem) && Generates(gs, |gs|, e) &&
             p.main == CompileBody(gs, e)
    ensures Returns(p, mem, n, Eval(gs, |gs|, e, mem))
  {
    hide *;
    BodyInstalled(p, gs, e);
    MakeSetting(p, gs, mem);
    var r := Emit(gs, |gs|, FRESH, e);
    var f := Frame(Main, 0, 0, 0, map[]);
    var f';
    n, f' := SimExpr(p, gs, |gs|, FRESH, e, f, Empty, mem);
    var v := Eval(gs, |gs|, e, mem);
    SimRet(p, r.0, r.1, n, f, f', mem, v);
    Persists(p, mem, n + 1, v);
    n := n + 1;
  }

  lemma MakeSetting(p: Program, gs: seq<Global>, mem: Memory)
    requires Declared(gs) && Linked(p, gs) && MemTyped(gs, mem)
    ensures Setting(p, gs, |gs|, mem)
  {
  }

  lemma Persists(p: Program, mem: Memory, n: nat, v: Option<(Value, Memory)>)
    requires Entry(p.main) == 0 && Steps(p, n, Run(Frame(Main, 0, 0, 0, map[]), Empty, mem)) == Outcome(v)
    ensures Returns(p, mem, n, v)
  {
    forall k | k >= n ensures Steps(p, k, Start(p, mem)) == Outcome(v) {
      StepsCompose(p, n, k - n, Start(p, mem));
      Settles(p, k - n, v);
    }
  }

  lemma Settles(p: Program, k: nat, v: Option<(Value, Memory)>)
    ensures Steps(p, k, Outcome(v)) == Outcome(v)
  {
    if v.Some? {
      DoneStays(p, k, v.value.0, v.value.1);
    } else {
      StuckStays(p, k);
    }
  }

  // The run returns a value exactly if evaluation comes to no overflowing division, and otherwise is stuck in one.
  lemma StuckExactly(p: Program, gs: seq<Global>, e: Expr, mem: Memory)
    requires Declared(gs) && Linked(p, gs) && MemReady(gs, mem) && Generates(gs, |gs|, e) &&
             p.main == CompileBody(gs, e)
    ensures (exists n :: Returns(p, mem, n, None)) <==> Overflows(gs, |gs|, e, mem)
    ensures (exists n, v, m :: Returns(p, mem, n, Some((v, m)))) <==> !Overflows(gs, |gs|, e, mem)
  {
    hide *;
    var r := Eval(gs, |gs|, e, mem);
    ReadyIsTyped(gs, mem);
    var n := CompiledRun(p, gs, e, mem);
    EvalProceeds(gs, |gs|, e, mem);
    HasValue(gs, r, Overflows(gs, |gs|, e, mem));
    if n' :| Returns(p, mem, n', None) {
      SameOutcome(p, mem, n, r, n', None);
    }
    if n', v, m :| Returns(p, mem, n', Some((v, m))) {
      SameOutcome(p, mem, n, r, n', Some((v, m)));
    }
    if r.Some? {
      assert r == Some((r.value.0, r.value.1));
    }
  }

  lemma ReadyIsTyped(gs: seq<Global>, mem: Memory)
    requires MemReady(gs, mem)
    ensures MemTyped(gs, mem)
  {
  }

  lemma HasValue(gs: seq<Global>, r: Option<(Value, Memory)>, overflows: bool)
    requires Proceeds(gs, r, overflows)
    ensures r.None? <==> overflows
  {
  }

  // A run has one outcome.
  lemma SameOutcome(p: Program, mem: Memory, n: nat, r: Option<(Value, Memory)>, n': nat, r': Option<(Value, Memory)>)
    requires Returns(p, mem, n, r) && Returns(p, mem, n', r')
    ensures r == r'
  {
    var k := n + n';
    assert Steps(p, k, Start(p, mem)) == Outcome(r) == Outcome(r');
  }

  // The smallest integer divided by -1.
  const OVERFLOWING: Expr := Arith(Divide, [Lit(I(INT64_MIN)), Lit(I(-1))])

  // A program that gets stuck.
  lemma OverflowSticks(mem: Memory) returns (p: Program)
    ensures Generates([], 0, OVERFLOWING) && p == Program(CompileBody([], OVERFLOWING), map[])
    ensures exists n :: Returns(p, mem, n, None)
  {
    hide *;
    OverflowReached(mem);
    p := Program(CompileBody([], OVERFLOWING), map[]);
    NoGlobals(p, mem);
    StuckExactly(p, [], OVERFLOWING, mem);
  }

  lemma OverflowReached(mem: Memory)
    ensures Generates([], 0, OVERFLOWING) && Overflows([], 0, OVERFLOWING, mem)
  {
    var args := OVERFLOWING.args;
    assert Resolve([], 0, args[0]) == Resolve([], 0, args[1]) == Some(TInt);
    assert args[1..] == [args[1]];
  }

  lemma NoGlobals(p: Program, mem: Memory)
    ensures Declared([]) && Linked(p, []) && MemReady([], mem)
  {
  }
}
