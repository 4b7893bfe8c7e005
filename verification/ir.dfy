/**
 The target of the code generator: functions made of basic blocks, and the machine that runs them.

 A register is named by the place of the instruction that defines it, (block, index), so the block that
 defines a register is part of its name.
 */
module IR {
  import opened Basics

  datatype Value = I(n: int64) | B(b: bool)

  datatype BinOp = Add | Sub | Mul | SDiv | SRem | And | Or
  datatype Predicate = Eq | Ne | Slt | Sle | Sgt | Sge

  datatype Operand = Const(v: Value) | Reg(block: nat, idx: nat)

  datatype Instr =
    | Bin(op: BinOp, a: Operand, b: Operand)
    | ICmp(p: Predicate, a: Operand, b: Operand)
    | Select(c: Operand, a: Operand, b: Operand)
    | ZExt(a: Operand)
    | Not(a: Operand)
    | Load(g: nat)
    | LoadDone(g: nat)
    | CallInit(g: nat)
    | Store(g: nat, a: Operand)
    | StoreDone(g: nat)
    | Phi(incoming: seq<(Operand, nat)>)

  datatype Terminator = Br(target: nat) | CondBr(c: Operand, onTrue: nat, onFalse: nat) | Ret(v: Operand) | RetVoid

  datatype Block = Block(instrs: seq<Instr>, term: Option<Terminator>)

  // A function under construction: its blocks by number, their order in the function body, and the
  // block at whose end the builder inserts.
  datatype Fn = Fn(blocks: seq<Block>, order: seq<nat>, cur: nat)

  // ---------- 64-bit arithmetic ----------

  function Abs(n: int): nat {
    if n < 0 then -n else n
  }

  // C and LLVM divide towards zero, Dafny does not.
  function TDiv(a: int, b: int): (q: int)
    requires b != 0
    ensures Abs(q) <= Abs(a)
    ensures (a < 0) == (b < 0) ==> q >= 0
    ensures Abs(b) >= 2 ==> 2 * Abs(q) <= Abs(a)
  {
    QuotientBounds(Abs(a), Abs(b));
    var m := Abs(a) / Abs(b);
    if (a < 0) == (b < 0) then m else -m
  }

  lemma QuotientBounds(m: nat, d: nat)
    requires d != 0
    ensures 0 <= m / d <= m
    ensures d >= 2 ==> 2 * (m / d) <= m
  {
    var q := m / d;
    assert m == d * q + m % d;
    MulNonNegative(d - 1, q);
    assert d * q == (d - 1) * q + q;
    if d >= 2 {
      MulNonNegative(d - 2, q);
      assert d * q == (d - 2) * q + 2 * q;
    }
  }

  lemma {:induction false} MulNonNegative(a: nat, b: nat)
    ensures 0 <= a * b
    decreases a
  {
    if a != 0 {
      MulNonNegative(a - 1, b);
      assert a * b == (a - 1) * b + b;
    }
  }

  // The remainder takes the sign of the dividend.
  function TRem(a: int, b: int): (r: int)
    requires b != 0
    ensures Abs(r) < Abs(b) && Abs(r) <= Abs(a) && (r == 0 || (r < 0) == (a < 0))
  {
    var m := Abs(a) % Abs(b);
    assert Abs(a) == Abs(b) * (Abs(a) / Abs(b)) + m;
    QuotientBounds(Abs(a), Abs(b));
    MulNonNegative(Abs(b), Abs(a) / Abs(b));
    if a < 0 then -m else m
  }

  lemma {:induction false} DivisionIdentity(a: int, b: int)
    requires b != 0
    ensures a == TDiv(a, b) * b + TRem(a, b)
  {
    var q, m := Abs(a) / Abs(b), Abs(a) % Abs(b);
    assert Abs(a) == Abs(b) * q + m;
    if b < 0 {
      assert (-q) * b == q * Abs(b);
    }
    if (a < 0) != (b < 0) && b < 0 {
      assert (-q) * b == q * Abs(b);
    } else if (a < 0) != (b < 0) {
      assert (-q) * b == -(q * Abs(b));
    } else if b < 0 {
      assert q * b == -(q * Abs(b));
    }
  }

  lemma MulAtLeast(k: int, b: int)
    ensures k != 0 ==> Abs(k * b) >= Abs(b)
  {
    if k > 0 {
      MulNonNegative(k - 1, Abs(b));
      assert k * Abs(b) == (k - 1) * Abs(b) + Abs(b);
      assert k * b == if b < 0 then -(k * Abs(b)) else k * Abs(b);
    } else if k < 0 {
      MulNonNegative(-k - 1, Abs(b));
      assert -k * Abs(b) == (-k - 1) * Abs(b) + Abs(b);
      assert k * b == if b < 0 then -k * Abs(b) else -(-k * Abs(b));
    }
  }

  // Division towards zero: the remainder is smaller than the divisor and has the sign of the dividend. There is no
  // other such division.
  lemma DivisionExactly(a: int, b: int, q: int, r: int)
    requires b != 0
    ensures a == q * b + r && Abs(r) < Abs(b) && (r == 0 || (r < 0) == (a < 0))
       <==> q == TDiv(a, b) && r == TRem(a, b)
  {
    hide TDiv, TRem;
    DivisionIdentity(a, b);
    if a == q * b + r && Abs(r) < Abs(b) && (r == 0 || (r < 0) == (a < 0)) {
      SameQuotient(b, q, r, TDiv(a, b), TRem(a, b));
    }
  }

  lemma SameQuotient(b: int, q: int, r: int, q': int, r': int)
    requires q * b + r == q' * b + r' && Abs(r - r') < Abs(b)
    ensures q == q' && r == r'
  {
    MulAtLeast(q - q', b);
    assert (q - q') * b == q * b - q' * b;
  }

  // ---------- pure instructions ----------

  type Regs = map<(nat, nat), Value>

  function OperandValue(o: Operand, regs: Regs): Option<Value> {
    match o
    case Const(v) => Some(v)
    case Reg(b, i) => if (b, i) in regs then Some(regs[(b, i)]) else None
  }

  function BinValue(op: BinOp, a: Value, b: Value): Option<Value> {
    match (op, a, b)
    case (Add, I(x), I(y)) => Some(I(Wrap(x + y)))
    case (Sub, I(x), I(y)) => Some(I(Wrap(x - y)))
    case (Mul, I(x), I(y)) => Some(I(Wrap(x * y)))
    case (SDiv, I(x), I(y)) => if y == 0 || (x == INT64_MIN && y == -1) then None else Some(I(TDiv(x, y)))
    case (SRem, I(x), I(y)) => if y == 0 || (x == INT64_MIN && y == -1) then None else Some(I(TRem(x, y)))
    case (And, B(x), B(y)) => Some(B(x && y))
    case (Or, B(x), B(y)) => Some(B(x || y))
    case _ => None
  }

  predicate Compare(p: Predicate, x: int, y: int) {
    match p
    case Eq => x == y
    case Ne => x != y
    case Slt => x < y
    case Sle => x <= y
    case Sgt => x > y
    case Sge => x >= y
  }

  // A one-bit integer compared as signed: true is -1.
  function Signed1(b: bool): int {
    if b then -1 else 0
  }

  function ICmpValue(p: Predicate, a: Value, b: Value): Option<Value> {
    match (a, b)
    case (I(x), I(y)) => Some(B(Compare(p, x, y)))
    case (B(x), B(y)) => Some(B(Compare(p, Signed1(x), Signed1(y))))
    case _ => None
  }

  predicate IsPure(i: Instr) {
    i.Bin? || i.ICmp? || i.Select? || i.ZExt? || i.Not?
  }

  // The value of a pure instruction; None when its behaviour is undefined.
  function PureValue(i: Instr, regs: Regs): Option<Value>
    requires IsPure(i)
  {
    match i
    case Bin(op, a, b) =>
      var x, y := OperandValue(a, regs), OperandValue(b, regs);
      if x.Some? && y.Some? then BinValue(op, x.value, y.value) else None
    case ICmp(p, a, b) =>
      var x, y := OperandValue(a, regs), OperandValue(b, regs);
      if x.Some? && y.Some? then ICmpValue(p, x.value, y.value) else None
    case Select(c, a, b) =>
      var k, x, y := OperandValue(c, regs), OperandValue(a, regs), OperandValue(b, regs);
      if k.Some? && k.value.B? && x.Some? && y.Some? then (if k.value.b then x else y) else None
    case ZExt(a) =>
      var x := OperandValue(a, regs);
      if x.Some? && x.value.B? then Some(I(if x.value.b then 1 else 0)) else None
    case Not(a) =>
      var x := OperandValue(a, regs);
      if x.Some? && x.value.B? then Some(B(!x.value.b)) else None
  }

  // ---------- the machine ----------

  // Loaded: global g was read and had value v.  Stored: v was stored as the value of lazy global g.
  datatype Event = Loaded(g: nat, v: Value) | Stored(g: nat, v: Value)

  // Global memory: the values of initialised globals, the globals whose done flag is set, and the
  // sequence of accesses so far.
  datatype Memory = Memory(vals: map<nat, Value>, done: set<nat>, log: seq<Event>)

  datatype FnId = Main | Init(g: nat)

  datatype Program = Program(main: Fn, inits: map<nat, Fn>)

  datatype Frame = Frame(fn: FnId, prev: nat, block: nat, idx: nat, regs: Regs)
  datatype Stack = Empty | Push(top: Frame, rest: Stack)

  datatype Config = Run(top: Frame, rest: Stack, mem: Memory) | Done(v: Value, mem: Memory) | Stuck

  predicate HasFn(p: Program, id: FnId) {
    id.Init? ==> id.g in p.inits
  }

  function CodeOf(p: Program, id: FnId): Fn
    requires HasFn(p, id)
  {
    match id
    case Main => p.main
    case Init(g) => p.inits[g]
  }

  // The first block in the order of the body is where a call starts.
  function Entry(f: Fn): nat {
    if f.order == [] then 0 else f.order[0]
  }

  function FindIncoming(incoming: seq<(Operand, nat)>, from: nat): Option<Operand> {
    if incoming == [] then None
    else if incoming[0].1 == from then Some(incoming[0].0)
    else FindIncoming(incoming[1..], from)
  }

  function Advance(f: Frame): Frame {
    f.(idx := f.idx + 1)
  }

  function Define(f: Frame, v: Value): Frame {
    f.(idx := f.idx + 1, regs := f.regs[(f.block, f.idx) := v])
  }

  function ExecInstr(p: Program, i: Instr, f: Frame, rest: Stack, mem: Memory): Config {
    match i
    case Load(g) =>
      if g in mem.vals then
        Run(Define(f, mem.vals[g]), rest, mem.(log := mem.log + [Loaded(g, mem.vals[g])]))
      else Stuck
    case LoadDone(g) => Run(Define(f, B(g in mem.done)), rest, mem)
    case CallInit(g) =>
      if g in p.inits then Run(Frame(Init(g), 0, Entry(p.inits[g]), 0, map[]), Push(Advance(f), rest), mem) else Stuck
    case Store(g, a) =>
      var x := OperandValue(a, f.regs);
      if x.Some? then
        Run(Advance(f), rest, mem.(vals := mem.vals[g := x.value], log := mem.log + [Stored(g, x.value)]))
      else Stuck
    case StoreDone(g) => Run(Advance(f), rest, mem.(done := mem.done + {g}))
    case Phi(incoming) =>
      var o := FindIncoming(incoming, f.prev);
      var x := if o.Some? then OperandValue(o.value, f.regs) else None;
      if x.Some? then Run(Define(f, x.value), rest, mem) else Stuck
    case _ =>
      var x := PureValue(i, f.regs);
      if x.Some? then Run(Define(f, x.value), rest, mem) else Stuck
  }

  function Goto(f: Frame, target: nat): Frame {
    f.(prev := f.block, block := target, idx := 0)
  }

  function ExecTerm(t: Terminator, f: Frame, rest: Stack, mem: Memory): Config {
    match t
    case Br(target) => Run(Goto(f, target), rest, mem)
    case CondBr(c, onTrue, onFalse) =>
      var x := OperandValue(c, f.regs);
      if x.Some? && x.value.B? then Run(Goto(f, if x.value.b then onTrue else onFalse), rest, mem) else Stuck
    case Ret(v) =>
      var x := OperandValue(v, f.regs);
      if x.Some? && rest.Empty? then Done(x.value, mem) else Stuck
    case RetVoid =>
      if rest.Push? then Run(rest.top, rest.rest, mem) else Stuck
  }

  // One step. Reaching the end of an unfinished block, reading an undefined register or global, and
  // undefined behaviour all lead to Stuck.
  function Step(p: Program, c: Config): Config {
    match c
    case Run(f, rest, mem) =>
      if !HasFn(p, f.fn) || f.block >= |CodeOf(p, f.fn).blocks| then Stuck
      else
        var bl := CodeOf(p, f.fn).blocks[f.block];
        if f.idx < |bl.instrs| then ExecInstr(p, bl.instrs[f.idx], f, rest, mem)
        else if f.idx == |bl.instrs| && bl.term.Some? then ExecTerm(bl.term.value, f, rest, mem)
        else Stuck
    case _ => c
  }

  function Steps(p: Program, n: nat, c: Config): Config
    decreases n
  {
    if n == 0 then c else Steps(p, n - 1, Step(p, c))
  }

  lemma {:induction false} StepsCompose(p: Program, m: nat, n: nat, c: Config)
    ensures Steps(p, m + n, c) == Steps(p, n, Steps(p, m, c))
    decreases m
  {
    if m != 0 {
      StepsCompose(p, m - 1, n, Step(p, c));
    }
  }

  lemma {:induction false} StuckStays(p: Program, n: nat)
    ensures Steps(p, n, Stuck) == Stuck
    decreases n
  {
    if n != 0 {
      StuckStays(p, n - 1);
    }
  }

  lemma {:induction false} DoneStays(p: Program, n: nat, v: Value, mem: Memory)
    ensures Steps(p, n, Done(v, mem)) == Done(v, mem)
    decreases n
  {
    if n != 0 {
      DoneStays(p, n - 1, v, mem);
    }
  }
}
