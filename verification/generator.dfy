/**
 The code generator in the form it runs: a builder whose insertion point moves over the blocks of one function,
 and methods that emit an expression into it. Each is proved to do what the functions of module CodeGen say.
 */
module Generator {
  import opened Basics
  import opened IR
  import opened Expressions
  import opened Building
  import opened CodeGen

  // ---------- block order ----------

  function NextIn(order: seq<nat>, b: nat): Option<nat> {
    if |order| < 2 then None
    else if order[0] == b then Some(order[1])
    else NextIn(order[1..], b)
  }

  function Without(order: seq<nat>, b: nat): seq<nat> {
    if order == [] then []
    else if order[0] == b then order[1..]
    else [order[0]] + Without(order[1..], b)
  }

  // Inserting behind b is appending when b is last, and otherwise inserting in front of b's successor.
  lemma {:induction false} InsertAfterIsBefore(order: seq<nat>, b: nat, x: nat)
    requires b in order && forall i, j :: 0 <= i < j < |order| ==> order[i] != order[j]
    ensures var next := NextIn(order, b);
            InsertAfter(order, b, x) == if next.None? then order + [x] else InsertBefore(order, next.value, x)
    ensures NextIn(order, b).Some? ==> NextIn(order, b).value in order && NextIn(order, b).value != b
  {
    if |order| >= 2 && order[0] != b {
      assert order == [order[0]] + order[1..];
      InsertAfterIsBefore(order[1..], b, x);
    } else if |order| == 1 {
      assert InsertAfter(order, b, x) == order + [x];
    } else {
      assert InsertBefore(order, order[1], x) == [order[0]] + InsertBefore(order[1..], order[1], x);
    }
  }

  lemma {:induction false} WithoutLast(order: seq<nat>, x: nat)
    requires x !in order
    ensures Without(order + [x], x) == order
  {
    if order != [] {
      assert (order + [x])[1..] == order[1..] + [x];
      WithoutLast(order[1..], x);
    }
  }

  lemma TwiceCounted(order: seq<nat>, i: nat, j: nat)
    requires i < j < |order| && order[i] == order[j]
    ensures multiset(order)[order[i]] >= 2
  {
    var b := order[i];
    assert order == order[..i] + [b] + order[i + 1..j] + [b] + order[j + 1..];
  }

  lemma LaidDistinct(s: Fn)
    requires Laid(s)
    ensures forall i, j :: 0 <= i < j < |s.order| ==> s.order[i] != s.order[j]
    ensures forall b: nat :: b in s.order <==> b < |s.blocks|
  {
    forall i, j | 0 <= i < j < |s.order| ensures s.order[i] != s.order[j] {
      if s.order[i] == s.order[j] {
        TwiceCounted(s.order, i, j);
      }
    }
    forall b: nat ensures b in s.order <==> b < |s.blocks| {
      assert b in s.order <==> multiset(s.order)[b] > 0;
    }
  }

  // ---------- the builder ----------

  class Builder {
    var blocks: seq<Block>
    var order: seq<nat>
    var cur: nat

    function State(): Fn
      reads this
    {
      Fn(blocks, order, cur)
    }

    // A function with its first block, at whose end the builder stands.
    constructor ()
      ensures State() == FRESH
    {
      blocks, order, cur := [Block([], None)], [0], 0;
    }

    method GetInsertBlock() returns (b: nat)
      ensures b == cur
    {
      b := cur;
    }

    method GetNextBlock(b: nat) returns (next: Option<nat>)
      ensures next == NextIn(order, b)
    {
      next := NextIn(order, b);
    }

    method AppendBlock() returns (b: nat)
      modifies this
      ensures b == |old(blocks)| && State() == Fn(old(blocks) + [Block([], None)], old(order) + [b], old(cur))
    {
      b := |blocks|;
      blocks, order := blocks + [Block([], None)], order + [b];
    }

    method InsertBlock(before: nat) returns (b: nat)
      modifies this
      ensures b == |old(blocks)| && State() == NewBefore(old(State()), before)
    {
      b := |blocks|;
      blocks, order := blocks + [Block([], None)], InsertBefore(order, before, b);
    }

    method MoveBlockAfter(b: nat, pos: nat)
      modifies this
      ensures State() == Fn(old(blocks), InsertAfter(Without(old(order), b), pos, b), old(cur))
    {
      order := InsertAfter(Without(order, b), pos, b);
    }

    method PositionAtEnd(b: nat)
      modifies this
      ensures State() == old(State()).(cur := b)
    {
      cur := b;
    }

    method BuildPure(i: Instr) returns (v: Operand)
      requires Ready(State()) && IsPure(i)
      modifies this
      ensures (State(), v) == Build(old(State()), i)
    {
      if AllConst(i) && PureValue(i, map[]).Some? {
        v := Const(PureValue(i, map[]).value);
      } else {
        v := BuildInstr(i);
      }
    }

    method BuildInstr(i: Instr) returns (v: Operand)
      requires Ready(State())
      modifies this
      ensures (State(), v) == Append(old(State()), i)
    {
      var bl := blocks[cur];
      v := Reg(cur, |bl.instrs|);
      blocks := blocks[cur := bl.(instrs := bl.instrs + [i])];
    }

    method BuildTerm(t: Terminator)
      requires Ready(State())
      modifies this
      ensures State() == Seal(old(State()), t, old(cur))
    {
      blocks := blocks[cur := blocks[cur].(term := Some(t))];
    }

    // Adds an incoming value to the phi at the head of block b.
    method AddIncomingTo(b: nat, v: Operand, from: nat)
      requires PhiHead(State(), b)
      modifies this
      ensures State() == AddIncoming(old(State()), b, v, from)
    {
      var bl := blocks[b];
      blocks := blocks[b := bl.(instrs := bl.instrs[0 := Phi(bl.instrs[0].incoming + [(v, from)])])];
    }

    // A new block behind the one in work: appended when that is last, else inserted in front of its successor.
    method NewBlockBehind() returns (b: nat)
      requires Ready(State()) && Laid(State())
      modifies this
      ensures b == |old(blocks)| && State() == NewAfter(old(State()))
    {
      LaidDistinct(State());
      InsertAfterIsBefore(order, cur, |blocks|);
      var next := GetNextBlock(cur);
      if next.None? {
        b := AppendBlock();
      } else {
        b := InsertBlock(next.value);
      }
    }

    // The same by appending and moving.
    method AppendBlockBehind() returns (b: nat)
      requires Ready(State()) && Laid(State())
      modifies this
      ensures b == |old(blocks)| && State() == NewAfter(old(State()))
    {
      LaidDistinct(State());
      WithoutLast(order, |blocks|);
      b := AppendBlock();
      MoveBlockAfter(b, cur);
    }
  }

  // ---------- compiling expressions ----------

  ghost predicate Usable(bld: Builder)
    reads bld
  {
    Ready(bld.State()) && Laid(bld.State())
  }

  lemma EmitUsable(gs: seq<Global>, limit: nat, s: Fn, e: Expr)
    requires Ready(s) && Laid(s) && Generates(gs, limit, e)
    ensures var r := Emit(gs, limit, s, e); Ready(r.0) && Laid(r.0)
  {
  }

  // Emits e and returns its operand, or None when the generator refuses e (which only arithmetic on bool causes
  // in expressions whose types are resolved); what was emitted before a refusal is then of no use.
  method CompileExpr(gs: seq<Global>, limit: nat, bld: Builder, e: Expr) returns (v: Option<Operand>)
    requires Resolve(gs, limit, e).Some? && limit <= |gs| && Usable(bld)
    modifies bld
    ensures v.Some? <==> Generates(gs, limit, e)
    ensures v.Some? ==> (bld.State(), v.value) == Emit(gs, limit, old(bld.State()), e) && Usable(bld)
    decreases e, 3
  {
    ghost var s := bld.State();
    match e
    case Lit(x) => v := Some(Const(x));
    case Global(g) =>
      var o := CompileLoad(gs, bld, g);
      v := Some(o);
    case Arith(op, args) => v := CompileArith(gs, limit, bld, op, args);
    case Cmp(p, x, y) =>
      v := None;
      var a := CompileExpr(gs, limit, bld, x);
      if a.Some? {
        var b := CompileExpr(gs, limit, bld, y);
        if b.Some? {
          var o := CompileCmp(bld, Resolve(gs, limit, x).value, p, a.value, b.value);
          v := Some(o);
        }
      }
    case Logic(conj, args) => v := CompileLogic(gs, limit, bld, conj, args);
    case Negate(x) =>
      v := CompileExpr(gs, limit, bld, x);
      if v.Some? {
        var o := bld.BuildPure(Not(v.value));
        v := Some(o);
      }
    case In(args) => v := CompileIn(gs, limit, bld, args);
    case If(c, t, f) => v := CompileIf(gs, limit, bld, e);
    if v.Some? {
      EmitUsable(gs, limit, s, e);
    }
  }

  method CompileCmp(bld: Builder, ty: Type, p: Predicate, va: Operand, vb: Operand) returns (v: Operand)
    requires Ready(bld.State())
    modifies bld
    ensures (bld.State(), v) == EmitCmp(old(bld.State()), ty, p, va, vb)
  {
    if ty.TInt? {
      v := bld.BuildPure(ICmp(p, va, vb));
    } else {
      var a := bld.BuildPure(ZExt(va));
      var b := bld.BuildPure(ZExt(vb));
      v := bld.BuildPure(ICmp(p, a, b));
    }
  }

  method CompileOp(bld: Builder, op: ArithOp, v: Operand, rand: Operand) returns (w: Operand)
    requires Ready(bld.State())
    modifies bld
    ensures (bld.State(), w) == EmitOp(old(bld.State()), op, v, rand)
  {
    match op
    case Plus => w := bld.BuildPure(Bin(Add, v, rand));
    case Minus => w := bld.BuildPure(Bin(Sub, v, rand));
    case Times => w := bld.BuildPure(Bin(Mul, v, rand));
    case Divide => w := CompileGuarded(bld, SDiv, v, rand);
    case Modulo => w := CompileGuarded(bld, SRem, v, rand);
    case Min =>
      var c := bld.BuildPure(ICmp(Slt, v, rand));
      w := bld.BuildPure(Select(c, v, rand));
    case Max =>
      var c := bld.BuildPure(ICmp(Sgt, v, rand));
      w := bld.BuildPure(Select(c, v, rand));
  }

  method CompileGuarded(bld: Builder, op: BinOp, v: Operand, rand: Operand) returns (w: Operand)
    requires Ready(bld.State())
    modifies bld
    ensures (bld.State(), w) == EmitGuarded(old(bld.State()), op, v, rand)
  {
    var test := bld.BuildPure(ICmp(Eq, rand, ZERO));
    var d := bld.BuildPure(Select(test, Const(I(INT64_MAX)), rand));
    w := bld.BuildPure(Bin(op, v, d));
  }

  // Ends the block in work and goes on in block next.
  method TurnTo(bld: Builder, ghost n: nat, t: Terminator, next: nat)
    requires var s := bld.State(); Ready(s) && n <= next && Open(s, next) && next != s.cur
    modifies bld
    ensures bld.State() == Turn(n, old(bld.State()), t, next)
  {
    bld.BuildTerm(t);
    bld.PositionAtEnd(next);
  }

  // Reads a global; a lazy one is initialised first unless its flag says that it was.
  method CompileLoad(gs: seq<Global>, bld: Builder, g: nat) returns (v: Operand)
    requires Usable(bld) && g < |gs|
    modifies bld
    ensures (bld.State(), v) == EmitLoad(gs, old(bld.State()), g)
  {
    if gs[g].Lazy? {
      var fblock, tblock, test := CompileDoneTest(bld, g);
      CompileInitCall(bld, fblock, tblock, test, g);
    }
    v := bld.BuildInstr(Load(g));
  }

  method CompileDoneTest(bld: Builder, g: nat) returns (fblock: nat, tblock: nat, test: Operand)
    requires Usable(bld)
    modifies bld
    ensures (bld.State(), test) == LoadTest(old(bld.State()), g)
    ensures fblock == |old(bld.State()).blocks| && tblock == fblock + 1
  {
    ghost var s := bld.State();
    fblock := bld.NewBlockBehind();
    tblock := bld.InsertBlock(fblock);
    assert bld.State() == LoadBlocks(s);
    var done := bld.BuildInstr(LoadDone(g));
    test := bld.BuildPure(ICmp(Eq, done, FALSE));
  }

  method CompileInitCall(bld: Builder, fblock: nat, tblock: nat, test: Operand, g: nat)
    requires var s := bld.State(); Ready(s) && Vacant(s, fblock) && Vacant(s, tblock) && tblock == fblock + 1
    modifies bld
    ensures bld.State() == LoadInit(old(bld.State()), fblock, test, g)
  {
    TurnTo(bld, fblock, CondBr(test, tblock, fblock), tblock);
    var _ := bld.BuildInstr(CallInit(g));
    TurnTo(bld, fblock, Br(fblock), fblock);
  }

  // Sum and product start from a constant, the other operations from their first operand.
  method CompileArith(gs: seq<Global>, limit: nat, bld: Builder, op: ArithOp,
                      args: seq<Expr>) returns (v: Option<Operand>)
    requires Resolve(gs, limit, Arith(op, args)).Some? && limit <= |gs| && Usable(bld)
    modifies bld
    ensures v.Some? <==> Generates(gs, limit, Arith(op, args))
    ensures v.Some? ==> (bld.State(), v.value) == Emit(gs, limit, old(bld.State()), Arith(op, args))
    decreases args, 4
  {
    var i := 0;
    if Unit(op).Some? {
      v := Some(Const(Unit(op).value));
    } else {
      v := CompileExpr(gs, limit, bld, args[0]);
      if v.None? {
        return;
      }
      i := 1;
    }
    if Resolve(gs, limit, Arith(op, args)) != Some(TInt) {
      return None;
    }
    v := CompileArithRest(gs, limit, bld, op, v.value, args, i);
    assert args[0..] == args;
  }

  method CompileArithRest(gs: seq<Global>, limit: nat, bld: Builder, op: ArithOp, first: Operand, args: seq<Expr>,
                          from: nat)
    returns (v: Option<Operand>)
    requires limit <= |gs| && Usable(bld) && from <= |args|
    requires forall j :: 0 <= j < |args| ==> Resolve(gs, limit, args[j]).Some?
    requires forall j :: 0 <= j < from ==> Generates(gs, limit, args[j])
    modifies bld
    ensures v.Some? <==> AllGenerate(gs, limit, args)
    ensures v.Some? ==>
              Usable(bld) && (bld.State(), v.value) == EmitArith(gs, limit, old(bld.State()), op, first, args[from..])
    decreases args, 3
  {
    hide EmitArith, EmitOp, GrowsFrom, Generates, Laid, Resolve;
    ghost var s1 := bld.State();
    v := Some(first);
    var i := from;
    while i < |args|
      invariant from <= i <= |args| && v.Some? && Usable(bld)
      invariant forall j :: 0 <= j < i ==> Generates(gs, limit, args[j])
      invariant AllGenerate(gs, limit, args) ==>
                  EmitArith(gs, limit, bld.State(), op, v.value, args[i..])
                  == EmitArith(gs, limit, s1, op, first, args[from..])
    {
      ghost var s2 := bld.State();
      var rand := CompileExpr(gs, limit, bld, args[i]);
      if rand.None? {
        return None;
      }
      ghost var s3 := bld.State();
      var w := CompileOp(bld, op, v.value, rand.value);
      OpUsable(s3, op, v.value, rand.value);
      if AllGenerate(gs, limit, args) {
        UnfoldArithAt(gs, limit, s2, op, v.value, args, i);
      }
      v := Some(w);
      i := i + 1;
    }
    ArithDone(gs, limit, bld.State(), op, v.value, args);
  }

  lemma OpUsable(s: Fn, op: ArithOp, v: Operand, rand: Operand)
    requires Ready(s) && Laid(s)
    ensures var r := EmitOp(s, op, v, rand); Ready(r.0) && Laid(r.0)
  {
    hide EmitOp;
  }

  lemma ArithDone(gs: seq<Global>, limit: nat, s: Fn, op: ArithOp, v: Operand, args: seq<Expr>)
    requires Ready(s)
    ensures EmitArith(gs, limit, s, op, v, args[|args|..]) == (s, v)
  {
  }

  lemma UnfoldArithAt(gs: seq<Global>, limit: nat, s: Fn, op: ArithOp, v: Operand, args: seq<Expr>, i: nat)
    requires Ready(s) && i < |args| && AllGenerate(gs, limit, args)
    ensures var r := Emit(gs, limit, s, args[i]);
            var w := EmitOp(r.0, op, v, r.1);
            EmitArith(gs, limit, s, op, v, args[i..]) == EmitArith(gs, limit, w.0, op, w.1, args[i + 1..])
  {
    hide Emit, EmitOp, GrowsFrom, Generates;
    assert args[i..][1..] == args[i + 1..];
  }

  ghost predicate AllGenerate(gs: seq<Global>, limit: nat, args: seq<Expr>) {
    forall j :: 0 <= j < |args| ==> Generates(gs, limit, args[j])
  }

  // The block behind the one in work, with a phi that has no values yet.
  method StartJoin(bld: Builder, byMove: bool) returns (end: nat, phi: Operand)
    requires Usable(bld)
    modifies bld
    ensures end == |old(bld.State()).blocks| && phi == Reg(end, 0)
    ensures bld.State() == OpenJoin(old(bld.State())) && Usable(bld)
  {
    var currblock := bld.GetInsertBlock();
    if byMove {
      end := bld.AppendBlockBehind();
    } else {
      end := bld.NewBlockBehind();
    }
    bld.PositionAtEnd(end);
    phi := bld.BuildInstr(Phi([]));
    bld.PositionAtEnd(currblock);
  }

  method PassToJoin(bld: Builder, end: nat, v: Operand)
    requires Collecting(bld.State(), end) && Usable(bld)
    modifies bld
    ensures bld.State() == Collect(old(bld.State()), end, v) && Usable(bld)
  {
    ghost var s := bld.State();
    var currblock := bld.GetInsertBlock();
    bld.AddIncomingTo(end, v, currblock);
    assert bld.State() == Collect(s, end, v);
  }

  method CompileLogicTest(bld: Builder, conj: bool, end: nat, v: Operand)
    requires Collecting(bld.State(), end) && Usable(bld)
    modifies bld
    ensures bld.State() == LogicTest(old(bld.State()), conj, end, v) && Usable(bld)
  {
    ghost var s := bld.State();
    var nextblock := bld.AppendBlockBehind();
    var test := bld.BuildPure(ICmp(if conj then Eq else Ne, v, FALSE));
    assert (bld.State(), test) == LogicCond(s, conj, end, v);
    TurnTo(bld, end, CondBr(test, end, nextblock), nextblock);
  }

  method CompileLogicStep(bld: Builder, conj: bool, end: nat, v: Operand, rand: Operand) returns (w: Operand)
    requires Collecting(bld.State(), end) && Usable(bld)
    modifies bld
    ensures (bld.State(), w) == LogicStep(old(bld.State()), conj, end, v, rand) && Usable(bld)
  {
    ghost var s := bld.State();
    w := bld.BuildPure(Bin(if conj then And else Or, v, rand));
    GrowsCollects(end, s, bld.State());
    PassToJoin(bld, end, w);
  }

  method CompileInTest(bld: Builder, ty: Type, end: nat, va: Operand, vb: Operand)
    requires Collecting(bld.State(), end) && Usable(bld)
    modifies bld
    ensures bld.State() == InTest(old(bld.State()), ty, end, va, vb) && Usable(bld)
  {
    hide GrowsFrom, Collects, Later, Laid, Collecting, EmitCmp, NewBefore, Collect, InTest, Turn;
    ghost var s := bld.State();
    InTestParts(s, ty, end, va, vb);
    var tmp := CompileCmp(bld, ty, Eq, va, vb);
    GrowsCollects(end, s, bld.State());
    CollectsLaid(end, s, bld.State());
    ghost var c := bld.State();
    var testblock := bld.InsertBlock(end);
    GrowsCollects(end, c, bld.State());
    CollectsLaid(end, c, bld.State());
    PassToJoin(bld, end, tmp);
    TurnTo(bld, end, CondBr(tmp, end, testblock), testblock);
    CollectsLaid(end, s, bld.State());
  }

  lemma CollectsLaid(end: nat, s: Fn, s': Fn)
    requires Collects(end, s, s')
    ensures Ready(s') && (Laid(s) ==> Laid(s'))
  {
  }

  lemma PieceCollects(gs: seq<Global>, limit: nat, s: Fn, end: nat, e: Expr)
    requires Collecting(s, end) && Generates(gs, limit, e)
    ensures Collecting(Emit(gs, limit, s, e).0, end)
  {
    GrowsCollects(end, s, Emit(gs, limit, s, e).0);
  }

  // The join block is made and given its phi first; then operand after operand is compiled in a block of its own.
  method CompileLogic(gs: seq<Global>, limit: nat, bld: Builder, conj: bool,
                      args: seq<Expr>) returns (v: Option<Operand>)
    requires Resolve(gs, limit, Logic(conj, args)).Some? && limit <= |gs| && Usable(bld)
    modifies bld
    ensures v.Some? <==> Generates(gs, limit, Logic(conj, args))
    ensures v.Some? ==> (bld.State(), v.value) == Emit(gs, limit, old(bld.State()), Logic(conj, args))
    decreases args, 4
  {
    ghost var s := bld.State();
    var endblock, phi := StartJoin(bld, true);
    v := CompileExpr(gs, limit, bld, args[0]);
    if v.None? {
      return;
    }
    PieceCollects(gs, limit, OpenJoin(s), endblock, args[0]);
    PassToJoin(bld, endblock, v.value);
    ghost var s1, v1 := bld.State(), v.value;
    v := CompileLogicRest(gs, limit, bld, conj, endblock, v.value, args);
    if v.Some? {
      v := Some(phi);
      TurnTo(bld, endblock, Br(endblock), endblock);
    }
  }

  // The operands after the first. The result is the last value passed to the join.
  method CompileLogicRest(gs: seq<Global>, limit: nat, bld: Builder, conj: bool, end: nat, first: Operand,
                          args: seq<Expr>)
    returns (v: Option<Operand>)
    requires limit <= |gs| && Usable(bld) && Collecting(bld.State(), end) && args != [] && Generates(gs, limit, args[0])
    requires forall j :: 0 <= j < |args| ==> Resolve(gs, limit, args[j]).Some?
    modifies bld
    ensures v.Some? <==> AllGenerate(gs, limit, args)
    ensures v.Some? ==> Usable(bld) && Collecting(bld.State(), end)
    ensures v.Some? ==>
              EmitLogic(gs, limit, old(bld.State()), conj, end, first, args[1..]) == CloseJoin(bld.State(), end)
    decreases args, 3
  {
    hide EmitLogic, LogicTest, LogicStep, GrowsFrom, Collects, Joins, Generates, Later, Laid, Collecting, CloseJoin,
      Resolve;
    ghost var s1 := bld.State();
    v := Some(first);
    var i := 1;
    while i < |args|
      invariant 1 <= i <= |args| && v.Some? && Usable(bld) && Collecting(bld.State(), end)
      invariant forall j :: 0 <= j < i ==> Generates(gs, limit, args[j])
      invariant AllGenerate(gs, limit, args) ==>
                  EmitLogic(gs, limit, bld.State(), conj, end, v.value, args[i..])
                  == EmitLogic(gs, limit, s1, conj, end, first, args[1..])
    {
      ghost var s2 := bld.State();
      CompileLogicTest(bld, conj, end, v.value);
      ghost var s3 := bld.State();
      var rand := CompileExpr(gs, limit, bld, args[i]);
      if rand.None? {
        return None;
      }
      PieceCollects(gs, limit, s3, end, args[i]);
      var w := CompileLogicStep(bld, conj, end, v.value, rand.value);
      if AllGenerate(gs, limit, args) {
        UnfoldLogicAt(gs, limit, s2, conj, end, v.value, args, i);
      }
      v := Some(w);
      i := i + 1;
    }
    LogicDone(gs, limit, bld.State(), conj, end, v.value, args);
  }

  lemma LogicDone(gs: seq<Global>, limit: nat, s: Fn, conj: bool, end: nat, v: Operand, args: seq<Expr>)
    requires Collecting(s, end)
    ensures EmitLogic(gs, limit, s, conj, end, v, args[|args|..]) == CloseJoin(s, end)
  {
  }

  lemma UnfoldLogicAt(gs: seq<Global>, limit: nat, s: Fn, conj: bool, end: nat, v: Operand, args: seq<Expr>, i: nat)
    requires Collecting(s, end) && i < |args| && AllGenerate(gs, limit, args)
    ensures var s1 := LogicTest(s, conj, end, v);
            var r := Emit(gs, limit, s1, args[i]);
            Collecting(r.0, end) &&
            var w := LogicStep(r.0, conj, end, v, r.1);
            EmitLogic(gs, limit, s, conj, end, v, args[i..]) == EmitLogic(gs, limit, w.0, conj, end, w.1, args[i + 1..])
  {
    hide LogicTest, LogicStep, GrowsFrom, Collects, Joins, Generates, Later, Emit;
    PieceCollects(gs, limit, LogicTest(s, conj, end, v), end, args[i]);
    assert args[i..][1..] == args[i + 1..];
  }

  // With fewer than two operands the result is false and nothing is compiled. The subject is compiled anew for
  // every candidate.
  method CompileIn(gs: seq<Global>, limit: nat, bld: Builder, args: seq<Expr>) returns (v: Option<Operand>)
    requires Resolve(gs, limit, In(args)).Some? && limit <= |gs| && Usable(bld)
    modifies bld
    ensures v.Some? <==> Generates(gs, limit, In(args))
    ensures v.Some? ==> (bld.State(), v.value) == Emit(gs, limit, old(bld.State()), In(args))
    decreases args, 4
  {
    if |args| < 2 {
      return Some(FALSE);
    }
    var endblock, phi := StartJoin(bld, false);
    var ok := CompileInRest(gs, limit, bld, Resolve(gs, limit, args[0]).value, endblock, args);
    if !ok {
      return None;
    }
    PassToJoin(bld, endblock, FALSE);
    TurnTo(bld, endblock, Br(endblock), endblock);
    v := Some(phi);
  }

  method CompileInRest(gs: seq<Global>, limit: nat, bld: Builder, ty: Type, end: nat,
                       args: seq<Expr>) returns (ok: bool)
    requires limit <= |gs| && Usable(bld) && Collecting(bld.State(), end) && |args| >= 2
    requires forall j :: 0 <= j < |args| ==> Resolve(gs, limit, args[j]).Some?
    modifies bld
    ensures ok <==> AllGenerate(gs, limit, args)
    ensures ok ==> Usable(bld) && Collecting(bld.State(), end)
    ensures ok ==>
              EmitIn(gs, limit, old(bld.State()), ty, end, args, 1)
              == EmitIn(gs, limit, bld.State(), ty, end, args, |args|)
    decreases args, 3
  {
    hide EmitIn, InTest, GrowsFrom, Collects, Joins, Generates, Later, Laid, Collecting, CloseJoin, Resolve, Emit;
    hide PhiGrows;
    ghost var s1 := bld.State();
    var i := 1;
    while i < |args|
      invariant 1 <= i <= |args| && Usable(bld) && Collecting(bld.State(), end)
      invariant i > 1 ==> forall j :: 0 <= j < i ==> Generates(gs, limit, args[j])
      invariant AllGenerate(gs, limit, args) ==>
                  EmitIn(gs, limit, bld.State(), ty, end, args, i) == EmitIn(gs, limit, s1, ty, end, args, 1)
    {
      ghost var s2 := bld.State();
      var a := CompileExpr(gs, limit, bld, args[0]);
      if a.None? {
        return false;
      }
      PieceCollects(gs, limit, s2, end, args[0]);
      ghost var s3 := bld.State();
      var b := CompileExpr(gs, limit, bld, args[i]);
      if b.None? {
        return false;
      }
      PieceCollects(gs, limit, s3, end, args[i]);
      CompileInTest(bld, ty, end, a.value, b.value);
      if AllGenerate(gs, limit, args) {
        UnfoldInAt(gs, limit, s2, ty, end, args, i);
      }
      i := i + 1;
    }
    ok := true;
  }

  lemma UnfoldInAt(gs: seq<Global>, limit: nat, s: Fn, ty: Type, end: nat, args: seq<Expr>, i: nat)
    requires Collecting(s, end) && 1 <= i < |args| && AllGenerate(gs, limit, args)
    ensures var a := Emit(gs, limit, s, args[0]);
            var b := Emit(gs, limit, a.0, args[i]);
            Collecting(b.0, end) &&
            EmitIn(gs, limit, s, ty, end, args, i)
            == EmitIn(gs, limit, InTest(b.0, ty, end, a.1, b.1), ty, end, args, i + 1)
  {
    hide InTest, GrowsFrom, Collects, Joins, Generates, Later, Emit;
    PieceCollects(gs, limit, s, end, args[0]);
    var a := Emit(gs, limit, s, args[0]);
    PieceCollects(gs, limit, a.0, end, args[i]);
  }

  method CompileIf(gs: seq<Global>, limit: nat, bld: Builder, e: Expr) returns (v: Option<Operand>)
    requires e.If? && Resolve(gs, limit, e).Some? && limit <= |gs| && Usable(bld)
    modifies bld
    ensures v.Some? <==> Generates(gs, limit, e)
    ensures v.Some? ==> (bld.State(), v.value) == EmitIf(gs, limit, old(bld.State()), e)
    decreases e, 2
  {
    ghost var s := bld.State();
    var endblock := bld.NewBlockBehind();
    var tblock := bld.InsertBlock(endblock);
    var fblock := bld.InsertBlock(endblock);
    assert bld.State() == IfBlocks(s);
    var cond := CompileExpr(gs, limit, bld, e.c);
    if cond.None? {
      return None;
    }
    v := CompileArms(gs, limit, bld, endblock, tblock, fblock, cond.value, e);
  }

  method CompileArms(gs: seq<Global>, limit: nat, bld: Builder, endblock: nat, tblock: nat, fblock: nat,
                     cond: Operand, e: Expr)
    returns (v: Option<Operand>)
    requires e.If? && Resolve(gs, limit, e).Some? && limit <= |gs| && Usable(bld) && Generates(gs, limit, e.c)
    requires tblock == endblock + 1 && fblock == endblock + 2
    requires var s := bld.State(); Vacant(s, endblock) && Vacant(s, tblock) && Vacant(s, fblock)
    modifies bld
    ensures v.Some? <==> Generates(gs, limit, e)
    ensures v.Some? ==> (bld.State(), v.value) == EmitArms(gs, limit, old(bld.State()), endblock, cond, e)
    decreases e, 1
  {
    hide EmitArms, EmitElse, Emit, Turn, GrowsFrom, Later, Generates, Laid, Resolve;
    ghost var s := bld.State();
    IfGenerates(gs, limit, e);
    TurnVacant(endblock, s, CondBr(cond, tblock, fblock), tblock, endblock);
    TurnTo(bld, endblock, CondBr(cond, tblock, fblock), tblock);
    var texp := CompileExpr(gs, limit, bld, e.t);
    if texp.None? {
      return None;
    }
    ArmsGo(gs, limit, s, endblock, cond, e);
    v := CompileElse(gs, limit, bld, endblock, tblock, fblock, texp.value, e.f);
  }

  // The true arm leaves the other blocks waiting, even if the false arm is refused.
  lemma ArmsGo(gs: seq<Global>, limit: nat, s: Fn, end: nat, cond: Operand, e: Expr)
    requires Ready(s) && Vacant(s, end) && Vacant(s, end + 1) && Vacant(s, end + 2)
    requires e.If? && Generates(gs, limit, e.t)
    ensures var rt := Emit(gs, limit, Turn(end, s, CondBr(cond, end + 1, end + 2), end + 1), e.t);
            && Vacant(rt.0, end) && Vacant(rt.0, end + 2)
            && (Generates(gs, limit, e) ==>
                  EmitArms(gs, limit, s, end, cond, e) == EmitElse(gs, limit, rt.0, end, rt.1, e.f))
  {
    hide Emit, EmitElse, EmitArms, Laid, GrowsFrom, Later, Generates;
    var s1 := Turn(end, s, CondBr(cond, end + 1, end + 2), end + 1);
    TurnVacant(end, s, CondBr(cond, end + 1, end + 2), end + 1, end);
    TurnVacant(end, s, CondBr(cond, end + 1, end + 2), end + 1, end + 2);
    VacantKept(s1, Emit(gs, limit, s1, e.t).0, end);
    VacantKept(s1, Emit(gs, limit, s1, e.t).0, end + 2);
    if Generates(gs, limit, e) {
      UnfoldArms(gs, limit, s, end, cond, e);
    }
  }

  method CompileElse(gs: seq<Global>, limit: nat, bld: Builder, endblock: nat, tblock: nat, fblock: nat,
                     texp: Operand, f: Expr)
    returns (v: Option<Operand>)
    requires Resolve(gs, limit, f).Some? && limit <= |gs| && Usable(bld)
    requires tblock == endblock + 1 && fblock == endblock + 2
    requires var s := bld.State(); Vacant(s, endblock) && Vacant(s, fblock)
    modifies bld
    ensures v.Some? <==> Generates(gs, limit, f)
    ensures v.Some? ==> (bld.State(), v.value) == EmitElse(gs, limit, old(bld.State()), endblock, texp, f)
    decreases f, 4
  {
    hide EmitElse, Turn, GrowsFrom, Later, Generates, Laid, Emit;
    ghost var s := bld.State();
    TurnTo(bld, endblock, Br(endblock), fblock);
    ghost var s1 := bld.State();
    TurnVacant(endblock, s, Br(endblock), fblock, endblock);
    var fexp := CompileExpr(gs, limit, bld, f);
    if fexp.None? {
      return None;
    }
    UnfoldElse(gs, limit, s, endblock, texp, f);
    TurnTo(bld, endblock, Br(endblock), endblock);
    var incoming := [(texp, IncomingBlock(texp, tblock)), (fexp.value, IncomingBlock(fexp.value, fblock))];
    var phi := bld.BuildInstr(Phi(incoming));
    v := Some(phi);
  }

  // ---------- whole functions ----------

  // A function that returns the value of e.
  method CompileFunction(gs: seq<Global>, e: Expr) returns (f: Option<Fn>)
    requires Resolve(gs, |gs|, e).Some?
    ensures f.Some? <==> Generates(gs, |gs|, e)
    ensures f.Some? ==> f.value == CompileBody(gs, e)
  {
    FreshLaid();
    var bld := new Builder();
    var v := CompileExpr(gs, |gs|, bld, e);
    if v.None? {
      return None;
    }
    bld.BuildTerm(Ret(v.value));
    f := Some(bld.State());
  }

  // The initialiser of lazy global g.
  method CompileInitialiser(gs: seq<Global>, g: nat) returns (f: Option<Fn>)
    requires g < |gs| && gs[g].Lazy? && Resolve(gs, g, gs[g].def).Some?
    ensures f.Some? <==> Generates(gs, g, gs[g].def)
    ensures f.Some? ==> f.value == CompileInit(gs, g)
  {
    FreshLaid();
    var bld := new Builder();
    var v := CompileExpr(gs, g, bld, gs[g].def);
    if v.None? {
      return None;
    }
    var _ := bld.BuildInstr(Store(g, v.value));
    var _ := bld.BuildInstr(StoreDone(g));
    bld.BuildTerm(RetVoid);
    f := Some(bld.State());
  }
}
