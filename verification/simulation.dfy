/**
 Running the emitted blocks does what direct evaluation does: same value, same memory, same accesses in the
 same order, and stuck exactly when direct evaluation is undefined.
 */
module Simulation {
  import opened Basics
  import opened IR
  import opened Expressions
  import opened Building
  import opened CodeGen

  // ---------- frames at a stage ----------

  // Registers are defined in finished blocks and in the block in work only.
  ghost predicate RegsIn(s: Fn, regs: Regs) {
    forall k :: k in regs ==>
                  k.0 < |s.blocks| && k.1 < |s.blocks[k.0].instrs| && (s.blocks[k.0].term.Some? || k.0 == s.cur)
  }

  // The frame is about to run what will be appended to s next.
  ghost predicate At(s: Fn, f: Frame) {
    Ready(s) && f.block == s.cur && f.idx == |s.blocks[s.cur].instrs| && RegsIn(s, f.regs)
  }

  ghost predicate Keeps(r: Regs, r': Regs) {
    forall k :: k in r ==> k in r' && r'[k] == r[k]
  }

  ghost predicate Lands(s': Fn, v: Operand, f: Frame, f': Frame, x: Value) {
    At(s', f') && f'.fn == f.fn && Keeps(f.regs, f'.regs) && OperandValue(v, f'.regs) == Some(x)
  }

  ghost predicate Installed(p: Program, id: FnId, s: Fn) {
    HasFn(p, id) && PartOf(s, CodeOf(p, id))
  }

  lemma {:induction false} Then(p: Program, a: nat, b: nat, c0: Config, c1: Config, c2: Config)
    requires Steps(p, a, c0) == c1 && Steps(p, b, c1) == c2
    ensures Steps(p, a + b, c0) == c2
  {
    StepsCompose(p, a, b, c0);
  }

  lemma One(p: Program, c: Config)
    ensures Steps(p, 1, c) == Step(p, c)
  {
    assert Steps(p, 0, Step(p, c)) == Step(p, c);
  }

  // ---------- single builder calls ----------

  lemma SimAppend(p: Program, s: Fn, i: Instr, f: Frame, rest: Stack, mem: Memory)
    requires Ready(s) && At(s, f) && Installed(p, f.fn, Append(s, i).0)
    ensures Step(p, Run(f, rest, mem)) == ExecInstr(p, i, f, rest, mem)
  {
    var code := CodeOf(p, f.fn);
    assert Append(s, i).0.blocks[s.cur].instrs[f.idx] == i;
  }

  // The outcome of running code up to stage s', whose operand is o: direct evaluation gives r.
  ghost predicate Gives(p: Program, n: nat, s': Fn, o: Operand, f: Frame, f': Frame, rest: Stack, mem: Memory,
                        r: Option<(Value, Memory)>)
  {
    match r
    case None => Steps(p, n, Run(f, rest, mem)) == Stuck
    case Some((x, m)) => Steps(p, n, Run(f, rest, mem)) == Run(f', rest, m) && Lands(s', o, f, f', x)
  }

  function With(x: Option<Value>, mem: Memory): Option<(Value, Memory)> {
    if x.Some? then Some((x.value, mem)) else None
  }

  // What is compiled next runs on from where the previous piece has landed.
  lemma Bind(p: Program, n1: nat, n2: nat, s1: Fn, o1: Operand, s2: Fn, o2: Operand,
             f: Frame, f1: Frame, f2: Frame, rest: Stack, mem: Memory, x: Value, m1: Memory, r: Option<(Value, Memory)>)
    requires Gives(p, n1, s1, o1, f, f1, rest, mem, Some((x, m1)))
    requires Gives(p, n2, s2, o2, f1, f2, rest, m1, r)
    ensures Gives(p, n1 + n2, s2, o2, f, f2, rest, mem, r)
  {
    StepsCompose(p, n1, n2, Run(f, rest, mem));
  }

  lemma Earlier(p: Program, id: FnId, a: Fn, b: Fn)
    requires Grows(a, b) && Installed(p, id, b)
    ensures Installed(p, id, a)
  {
    GrowsLater(a, b);
    LaterPartOf(a, b, CodeOf(p, id));
  }

  lemma SimBuild(p: Program, s: Fn, i: Instr, f: Frame, rest: Stack, mem: Memory) returns (n: nat, f': Frame)
    requires Ready(s) && IsPure(i) && At(s, f) && Installed(p, f.fn, Build(s, i).0)
    ensures Gives(p, n, Build(s, i).0, Build(s, i).1, f, f', rest, mem, With(PureValue(i, f.regs), mem))
  {
    hide At, Installed, GrowsFrom;
    ConstValue(i, f.regs);
    if AllConst(i) && PureValue(i, map[]).Some? {
      n, f' := 0, f;
      assert Lands(s, Build(s, i).1, f, f, PureValue(i, map[]).value);
    } else {
      SimAppend(p, s, i, f, rest, mem);
      One(p, Run(f, rest, mem));
      n, f' := 1, f;
      if PureValue(i, f.regs).Some? {
        f' := Define(f, PureValue(i, f.regs).value);
        DefineLands(s, i, f, PureValue(i, f.regs).value);
      }
    }
  }

  lemma ConstValue(i: Instr, regs: Regs)
    ensures IsPure(i) && AllConst(i) ==> PureValue(i, regs) == PureValue(i, map[])
  {
  }

  lemma DefineLands(s: Fn, i: Instr, f: Frame, x: Value)
    requires Ready(s) && At(s, f)
    ensures Lands(Append(s, i).0, Append(s, i).1, f, Define(f, x), x)
  {
  }

  // A finished block ends with its terminator.
  lemma SimSeal(p: Program, s: Fn, t: Terminator, f: Frame, rest: Stack, mem: Memory)
    requires Ready(s) && At(s, f) && HasFn(p, f.fn)
    requires s.cur < |CodeOf(p, f.fn).blocks| && CodeOf(p, f.fn).blocks[s.cur] == s.blocks[s.cur].(term := Some(t))
    ensures Steps(p, 1, Run(f, rest, mem)) == ExecTerm(t, f, rest, mem)
  {
    One(p, Run(f, rest, mem));
  }

  lemma Landed(p: Program, n: nat, s': Fn, o: Operand, f: Frame, f': Frame, rest: Stack, mem: Memory, x: Value,
               m: Memory)
    requires Gives(p, n, s', o, f, f', rest, mem, Some((x, m)))
    ensures Steps(p, n, Run(f, rest, mem)) == Run(f', rest, m)
    ensures At(s', f') && f'.fn == f.fn && Keeps(f.regs, f'.regs) && OperandValue(o, f'.regs) == Some(x)
  {
  }

  lemma Kept(o: Operand, r: Regs, r': Regs)
    requires Keeps(r, r') && OperandValue(o, r).Some?
    ensures OperandValue(o, r') == OperandValue(o, r)
  {
  }

  // One more builder call after code that has landed with value x.
  lemma SimNext(p: Program, n1: nat, s1: Fn, o1: Operand, j: Instr, f: Frame, f1: Frame, rest: Stack, mem: Memory,
                x: Value, m1: Memory)
    returns (n: nat, f': Frame)
    requires Ready(s1) && IsPure(j) && Installed(p, f.fn, Build(s1, j).0)
    requires Gives(p, n1, s1, o1, f, f1, rest, mem, Some((x, m1)))
    ensures Gives(p, n, Build(s1, j).0, Build(s1, j).1, f, f', rest, mem, With(PureValue(j, f1.regs), m1))
  {
    Landed(p, n1, s1, o1, f, f1, rest, mem, x, m1);
    hide At, Gives, Lands, Installed, GrowsFrom, Build, PureValue;
    var n2;
    n2, f' := SimBuild(p, s1, j, f1, rest, m1);
    Bind(p, n1, n2, s1, o1, Build(s1, j).0, Build(s1, j).1, f, f1, f', rest, mem, x, m1,
         With(PureValue(j, f1.regs), m1));
    n := n1 + n2;
  }

  // Two builder calls in a row, the first of which has value x.
  lemma SimTwo(p: Program, s: Fn, i: Instr, j: Instr, f: Frame, rest: Stack, mem: Memory, x: Value)
    returns (n: nat, f1: Frame, f': Frame)
    requires Ready(s) && IsPure(i) && IsPure(j) && At(s, f) && PureValue(i, f.regs) == Some(x)
    requires Installed(p, f.fn, Build(Build(s, i).0, j).0)
    ensures Keeps(f.regs, f1.regs) && OperandValue(Build(s, i).1, f1.regs) == Some(x)
    ensures PureValue(j, f1.regs).Some? ==> Keeps(f1.regs, f'.regs)
    ensures var s2 := Build(Build(s, i).0, j);
            Gives(p, n, s2.0, s2.1, f, f', rest, mem, With(PureValue(j, f1.regs), mem))
  {
    hide At, Lands, Installed, GrowsFrom, Build, PureValue, OperandValue, Gives, Keeps, PartOf, Later;
    var s1 := Build(s, i);
    var s2 := Build(s1.0, j);
    Earlier(p, f.fn, s1.0, s2.0);
    var n1, n2;
    n1, f1 := SimBuild(p, s, i, f, rest, mem);
    Landed(p, n1, s1.0, s1.1, f, f1, rest, mem, x, mem);
    n2, f' := SimBuild(p, s1.0, j, f1, rest, mem);
    Bind(p, n1, n2, s1.0, s1.1, s2.0, s2.1, f, f1, f', rest, mem, x, mem, With(PureValue(j, f1.regs), mem));
    n := n1 + n2;
    if PureValue(j, f1.regs).Some? {
      Landed(p, n2, s2.0, s2.1, f1, f', rest, mem, PureValue(j, f1.regs).value, mem);
    }
  }

  // ---------- operators ----------

  lemma SimPick(p: Program, s: Fn, q: Predicate, v: Operand, rand: Operand, f: Frame, rest: Stack, mem: Memory,
                x: int64, y: int64)
    returns (n: nat, f': Frame)
    requires Ready(s) && At(s, f) && OperandValue(v, f.regs) == Some(I(x)) && OperandValue(rand, f.regs) == Some(I(y))
    requires var c := Build(s, ICmp(q, v, rand)); Installed(p, f.fn, Build(c.0, Select(c.1, v, rand)).0)
    ensures var c := Build(s, ICmp(q, v, rand));
            var d := Build(c.0, Select(c.1, v, rand));
            Gives(p, n, d.0, d.1, f, f', rest, mem, Some((I(if Compare(q, x, y) then x else y), mem)))
  {
    var c := Build(s, ICmp(q, v, rand));
    var f1;
    n, f1, f' := SimTwo(p, s, ICmp(q, v, rand), Select(c.1, v, rand), f, rest, mem, B(Compare(q, x, y)));
    Kept(v, f.regs, f1.regs);
    Kept(rand, f.regs, f1.regs);
  }

  lemma SimDivisor(p: Program, s: Fn, rand: Operand, f: Frame, rest: Stack, mem: Memory, y: int64)
    returns (n: nat, f': Frame)
    requires Ready(s) && At(s, f) && OperandValue(rand, f.regs) == Some(I(y))
    requires var test := Build(s, ICmp(Eq, rand, ZERO));
             Installed(p, f.fn, Build(test.0, Select(test.1, Const(I(INT64_MAX)), rand)).0)
    ensures var test := Build(s, ICmp(Eq, rand, ZERO));
            var d := Build(test.0, Select(test.1, Const(I(INT64_MAX)), rand));
            Gives(p, n, d.0, d.1, f, f', rest, mem, Some((if y == 0 then I(INT64_MAX) else I(y), mem)))
  {
    var test := Build(s, ICmp(Eq, rand, ZERO));
    var f1;
    n, f1, f' := SimTwo(p, s, ICmp(Eq, rand, ZERO), Select(test.1, Const(I(INT64_MAX)), rand), f, rest, mem, B(y == 0));
    Kept(rand, f.regs, f1.regs);
  }

  lemma SimGuarded(p: Program, s: Fn, op: BinOp, v: Operand, rand: Operand, f: Frame, rest: Stack, mem: Memory,
                   x: int64, y: int64)
    returns (n: nat, f': Frame)
    requires Ready(s) && At(s, f) && OperandValue(v, f.regs) == Some(I(x)) && OperandValue(rand, f.regs) == Some(I(y))
    requires Installed(p, f.fn, EmitGuarded(s, op, v, rand).0)
    ensures var r := EmitGuarded(s, op, v, rand);
            Gives(p, n, r.0, r.1, f, f', rest, mem, With(BinValue(op, I(x), if y == 0 then I(INT64_MAX) else I(y)),
                                                         mem))
  {
    var test := Build(s, ICmp(Eq, rand, ZERO));
    var d := Build(test.0, Select(test.1, Const(I(INT64_MAX)), rand));
    var d' := if y == 0 then I(INT64_MAX) else I(y);
    Earlier(p, f.fn, d.0, Build(d.0, Bin(op, v, d.1)).0);
    var n1, f1 := SimDivisor(p, s, rand, f, rest, mem, y);
    Kept(v, f.regs, f1.regs);
    n, f' := SimNext(p, n1, d.0, d.1, Bin(op, v, d.1), f, f1, rest, mem, d', mem);
    assert PureValue(Bin(op, v, d.1), f1.regs) == BinValue(op, I(x), d');
  }

  // The operators that are one machine instruction on a possibly adjusted second operand.
  lemma OpValue(op: ArithOp, x: int64, y: int64)
    requires !op.Min? && !op.Max?
    ensures var bop := match op case Plus => Add case Minus => Sub case Times => Mul case Divide => SDiv case _ => SRem;
            var d := if (op.Divide? || op.Modulo?) && y == 0 then I(INT64_MAX) else I(y);
            ArithValue(op, I(x), I(y)) == BinValue(bop, I(x), d)
  {
  }

  lemma SimPlain(p: Program, s: Fn, op: BinOp, v: Operand, rand: Operand, f: Frame, rest: Stack, mem: Memory,
                 x: int64, y: int64)
    returns (n: nat, f': Frame)
    requires Ready(s) && At(s, f) && Installed(p, f.fn, Build(s, Bin(op, v, rand)).0)
    requires OperandValue(v, f.regs) == Some(I(x)) && OperandValue(rand, f.regs) == Some(I(y))
    ensures var r := Build(s, Bin(op, v, rand));
            Gives(p, n, r.0, r.1, f, f', rest, mem, With(BinValue(op, I(x), I(y)), mem))
  {
    n, f' := SimBuild(p, s, Bin(op, v, rand), f, rest, mem);
  }

  lemma SimOp(p: Program, s: Fn, op: ArithOp, v: Operand, rand: Operand, f: Frame, rest: Stack, mem: Memory,
              x: int64, y: int64)
    returns (n: nat, f': Frame)
    requires Ready(s) && At(s, f) && Installed(p, f.fn, EmitOp(s, op, v, rand).0)
    requires OperandValue(v, f.regs) == Some(I(x)) && OperandValue(rand, f.regs) == Some(I(y))
    ensures var r := EmitOp(s, op, v, rand);
            Gives(p, n, r.0, r.1, f, f', rest, mem, With(ArithValue(op, I(x), I(y)), mem))
  {
    hide At, Gives, Installed, GrowsFrom, Build, PureValue, TDiv, TRem, Wrap;
    if op.Min? {
      n, f' := SimPick(p, s, Slt, v, rand, f, rest, mem, x, y);
    } else if op.Max? {
      n, f' := SimPick(p, s, Sgt, v, rand, f, rest, mem, x, y);
    } else {
      OpValue(op, x, y);
      match op
      case Plus => n, f' := SimPlain(p, s, Add, v, rand, f, rest, mem, x, y);
      case Minus => n, f' := SimPlain(p, s, Sub, v, rand, f, rest, mem, x, y);
      case Times => n, f' := SimPlain(p, s, Mul, v, rand, f, rest, mem, x, y);
      case Divide => n, f' := SimGuarded(p, s, SDiv, v, rand, f, rest, mem, x, y);
      case Modulo => n, f' := SimGuarded(p, s, SRem, v, rand, f, rest, mem, x, y);
    }
  }

  lemma SimCmpBool(p: Program, s: Fn, q: Predicate, va: Operand, vb: Operand, f: Frame, rest: Stack, mem: Memory,
                   x: bool, y: bool)
    returns (n: nat, f': Frame)
    requires Ready(s) && At(s, f) && Installed(p, f.fn, EmitCmp(s, TBool, q, va, vb).0)
    requires OperandValue(va, f.regs) == Some(B(x)) && OperandValue(vb, f.regs) == Some(B(y))
    ensures var r := EmitCmp(s, TBool, q, va, vb);
            Gives(p, n, r.0, r.1, f, f', rest, mem, Some((B(Compare(q, Rank(x), Rank(y))), mem)))
  {
    hide At, Lands, Installed, GrowsFrom, Build, Gives, Keeps, PartOf, Later;
    var a := Build(s, ZExt(va));
    var b := Build(a.0, ZExt(vb));
    var c := Build(b.0, ICmp(q, a.1, b.1));
    assert EmitCmp(s, TBool, q, va, vb) == c;
    assert PureValue(ZExt(va), f.regs) == Some(I(Rank(x)));
    hide EmitCmp;
    Earlier(p, f.fn, b.0, c.0);
    var n2, f1, f2 := SimTwo(p, s, ZExt(va), ZExt(vb), f, rest, mem, I(Rank(x)));
    Kept(vb, f.regs, f1.regs);
    assert PureValue(ZExt(vb), f1.regs) == Some(I(Rank(y)));
    Kept(a.1, f1.regs, f2.regs);
    Landed(p, n2, b.0, b.1, f, f2, rest, mem, I(Rank(y)), mem);
    n, f' := SimNext(p, n2, b.0, b.1, ICmp(q, a.1, b.1), f, f2, rest, mem, I(Rank(y)), mem);
    assert PureValue(ICmp(q, a.1, b.1), f2.regs) == Some(B(Compare(q, Rank(x), Rank(y))));
  }

  lemma SimCmp(p: Program, s: Fn, ty: Type, q: Predicate, va: Operand, vb: Operand, f: Frame, rest: Stack,
               mem: Memory, x: Value, y: Value)
    returns (n: nat, f': Frame)
    requires Ready(s) && At(s, f) && Installed(p, f.fn, EmitCmp(s, ty, q, va, vb).0)
    requires OperandValue(va, f.regs) == Some(x) && OperandValue(vb, f.regs) == Some(y)
    requires TypeOf(x) == ty == TypeOf(y)
    ensures var r := EmitCmp(s, ty, q, va, vb);
            Gives(p, n, r.0, r.1, f, f', rest, mem, CmpResult(q, x, (y, mem)))
  {
    hide At, Lands, Installed, GrowsFrom, Build;
    if ty.TInt? {
      n, f' := SimBuild(p, s, ICmp(q, va, vb), f, rest, mem);
    } else {
      n, f' := SimCmpBool(p, s, q, va, vb, f, rest, mem, x.b, y.b);
    }
  }

  // ---------- control flow ----------

  lemma EarlierLater(p: Program, id: FnId, a: Fn, b: Fn)
    requires Later(a, b) && Installed(p, id, b)
    ensures Installed(p, id, a)
  {
    LaterPartOf(a, b, CodeOf(p, id));
  }

  // Leaving a finished block.
  lemma SimTurn(p: Program, m: nat, s: Fn, t: Terminator, next: nat, f: Frame, rest: Stack, mem: Memory)
    requires Ready(s) && m <= next && Open(s, next) && next != s.cur
    requires At(s, f) && Installed(p, f.fn, Turn(m, s, t, next))
    ensures Steps(p, 1, Run(f, rest, mem)) == ExecTerm(t, f, rest, mem)
    ensures s.blocks[next].instrs == [] ==> At(Turn(m, s, t, next), Goto(f, next))
  {
    var s' := Turn(m, s, t, next);
    assert s'.blocks[s.cur] == s.blocks[s.cur].(term := Some(t));
    assert CodeOf(p, f.fn).blocks[s.cur] == s'.blocks[s.cur];
    SimSeal(p, s, t, f, rest, mem);
  }

  lemma {:induction false} FindPrefix(a: seq<(Operand, nat)>, b: seq<(Operand, nat)>, from: nat)
    requires a <= b && FindIncoming(a, from).Some?
    ensures FindIncoming(b, from) == FindIncoming(a, from)
  {
    if a[0].1 != from {
      FindPrefix(a[1..], b[1..], from);
    }
  }

  lemma {:induction false} FindLast(a: seq<(Operand, nat)>, o: Operand, from: nat)
    requires forall i :: 0 <= i < |a| ==> a[i].1 != from
    ensures FindIncoming(a + [(o, from)], from) == Some(o)
  {
    if a != [] {
      assert (a + [(o, from)])[1..] == a[1..] + [(o, from)];
      FindLast(a[1..], o, from);
    }
  }

  // Arriving at a join: the phi takes the operand that came with the block just left.
  lemma SimPhi(p: Program, r: Fn, end: nat, s: Fn, f: Frame, rest: Stack, mem: Memory, o: Operand, x: Value)
    returns (f': Frame)
    requires Joins(end, s, r) && Installed(p, f.fn, r)
    requires At(s, f) && r.blocks[s.cur].term.Some?
    requires FindIncoming(Incoming(s, end), s.cur) == Some(o) && OperandValue(o, f.regs) == Some(x)
    ensures Steps(p, 1, Run(Goto(f, end), rest, mem)) == Run(f', rest, mem)
    ensures Lands(r, Reg(end, 0), f, f', x)
  {
    var g := Goto(f, end);
    FindPrefix(Incoming(s, end), Incoming(r, end), s.cur);
    assert CodeOf(p, f.fn).blocks[end].instrs[0] == r.blocks[end].instrs[0];
    f' := Define(g, x);
    One(p, Run(g, rest, mem));
    PhiLands(r, end, s, f, x);
  }

  lemma PhiLands(r: Fn, end: nat, s: Fn, f: Frame, x: Value)
    requires Joins(end, s, r) && At(s, f) && r.blocks[s.cur].term.Some?
    ensures Lands(r, Reg(end, 0), f, Define(Goto(f, end), x), x)
  {
    assert (end, 0) !in f.regs;
  }
}
