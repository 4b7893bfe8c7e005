/**
 What the operations compute, said in plain arithmetic and logic.
 */
module Meanings {
  import opened Basics
  import opened IR
  import opened Expressions

  // From mem, the operands evaluate in order to vs and leave the memory after.
  ghost predicate InOrder(gs: seq<Global>, limit: nat, args: seq<Expr>, mem: Memory, vs: seq<Value>, after: Memory) {
    if args == [] then vs == [] && after == mem
    else
      var r := Eval(gs, limit, args[0], mem);
      r.Some? && vs != [] && r.value.0 == vs[0] && InOrder(gs, limit, args[1..], r.value.1, vs[1..], after)
  }

  function Ints(xs: seq<int64>): (vs: seq<Value>)
    ensures |vs| == |xs| && forall i :: 0 <= i < |xs| ==> vs[i] == I(xs[i])
  {
    if xs == [] then [] else [I(xs[0])] + Ints(xs[1..])
  }

  function Bools(bs: seq<bool>): (vs: seq<Value>)
    ensures |vs| == |bs| && forall i :: 0 <= i < |bs| ==> vs[i] == B(bs[i])
  {
    if bs == [] then [] else [B(bs[0])] + Bools(bs[1..])
  }

  // ---------- arithmetic ----------

  function Sum(xs: seq<int>): int {
    if xs == [] then 0 else xs[0] + Sum(xs[1..])
  }

  function Product(xs: seq<int>): int {
    if xs == [] then 1 else xs[0] * Product(xs[1..])
  }

  const TWO64: int := 0x1_0000_0000_0000_0000

  lemma WrapShifted(n: int, k: int)
    ensures Wrap(n + k * TWO64) == Wrap(n)
  {
  }

  lemma WrapWrapped(n: int) returns (k: int)
    ensures n == Wrap(n) + k * TWO64
  {
    k := (n - Wrap(n)) / TWO64;
  }

  lemma WrapSum(a: int, b: int)
    ensures Wrap(Wrap(a) + b) == Wrap(a + b)
  {
    hide Wrap;
    var k := WrapWrapped(a);
    WrapShifted(Wrap(a) + b, k);
  }

  lemma WrapProduct(a: int, b: int)
    ensures Wrap(Wrap(a) * b) == Wrap(a * b)
  {
    hide Wrap;
    var k := WrapWrapped(a);
    assert a * b == Wrap(a) * b + (k * b) * TWO64;
    WrapShifted(Wrap(a) * b, k * b);
  }

  // The operands behind the first one.
  lemma OperandsTail(gs: seq<Global>, limit: nat, args: seq<Expr>, mem: Memory, xs: seq<int64>, after: Memory)
    requires InOrder(gs, limit, args, mem, Ints(xs), after)
    ensures args == [] ==> xs == [] && after == mem
    ensures args != [] ==> var r := Eval(gs, limit, args[0], mem);
                           && r.Some? && xs != [] && r.value.0 == I(xs[0])
                           && InOrder(gs, limit, args[1..], r.value.1, Ints(xs[1..]), after)
  {
    hide Eval;
    if args != [] {
      assert Ints(xs)[1..] == Ints(xs[1..]);
    }
  }

  lemma {:induction false} SumFold(gs: seq<Global>, limit: nat, a: int, args: seq<Expr>, mem: Memory, xs: seq<int64>,
                                   after: Memory)
    requires InOrder(gs, limit, args, mem, Ints(xs), after)
    ensures EvalArith(gs, limit, Plus, I(Wrap(a)), args, mem) == Some((I(Wrap(a + Sum(xs))), after))
    decreases |args|
  {
    hide Eval, InOrder, Wrap;
    OperandsTail(gs, limit, args, mem, xs, after);
    if args != [] {
      WrapSum(a, xs[0]);
      SumFold(gs, limit, a + xs[0], args[1..], Eval(gs, limit, args[0], mem).value.1, xs[1..], after);
    }
  }

  // The value of a sum is the sum of its operands, wrapped once.
  lemma SumMeans(gs: seq<Global>, limit: nat, args: seq<Expr>, mem: Memory, xs: seq<int64>, after: Memory)
    requires InOrder(gs, limit, args, mem, Ints(xs), after)
    ensures Eval(gs, limit, Arith(Plus, args), mem) == Some((I(Wrap(Sum(xs))), after))
  {
    SumFold(gs, limit, 0, args, mem, xs, after);
  }

  lemma ProductHead(a: int, xs: seq<int>)
    ensures a * Product(xs) == if xs == [] then a else (a * xs[0]) * Product(xs[1..])
  {
    if xs != [] {
      assert Product(xs) == xs[0] * Product(xs[1..]);
    }
  }

  lemma {:induction false} ProductFold(gs: seq<Global>, limit: nat, a: int, args: seq<Expr>, mem: Memory,
                                       xs: seq<int64>, after: Memory)
    requires InOrder(gs, limit, args, mem, Ints(xs), after)
    ensures EvalArith(gs, limit, Times, I(Wrap(a)), args, mem) == Some((I(Wrap(a * Product(xs))), after))
    decreases |args|
  {
    hide Eval, InOrder, Wrap, Product;
    ProductHead(a, xs);
    OperandsTail(gs, limit, args, mem, xs, after);
    if args != [] {
      WrapProduct(a, xs[0]);
      ProductFold(gs, limit, a * xs[0], args[1..], Eval(gs, limit, args[0], mem).value.1, xs[1..], after);
    }
  }

  lemma ProductMeans(gs: seq<Global>, limit: nat, args: seq<Expr>, mem: Memory, xs: seq<int64>, after: Memory)
    requires InOrder(gs, limit, args, mem, Ints(xs), after)
    ensures Eval(gs, limit, Arith(Times, args), mem) == Some((I(Wrap(Product(xs))), after))
  {
    ProductFold(gs, limit, 1, args, mem, xs, after);
  }

  lemma {:induction false} DifferenceFold(gs: seq<Global>, limit: nat, a: int, args: seq<Expr>, mem: Memory,
                                          xs: seq<int64>, after: Memory)
    requires InOrder(gs, limit, args, mem, Ints(xs), after)
    ensures EvalArith(gs, limit, Minus, I(Wrap(a)), args, mem) == Some((I(Wrap(a - Sum(xs))), after))
    decreases |args|
  {
    hide Eval, InOrder, Wrap;
    OperandsTail(gs, limit, args, mem, xs, after);
    if args != [] {
      var x: int := xs[0];
      WrapSum(a, -x);
      DifferenceFold(gs, limit, a - xs[0], args[1..], Eval(gs, limit, args[0], mem).value.1, xs[1..], after);
    }
  }

  // A difference takes all other operands from the first one.
  lemma DifferenceMeans(gs: seq<Global>, limit: nat, args: seq<Expr>, mem: Memory, xs: seq<int64>, after: Memory)
    requires InOrder(gs, limit, args, mem, Ints(xs), after) && args != []
    ensures Eval(gs, limit, Arith(Minus, args), mem) == Some((I(Wrap(xs[0] - Sum(xs[1..]))), after))
  {
    hide InOrder;
    OperandsTail(gs, limit, args, mem, xs, after);
    DifferenceFold(gs, limit, xs[0], args[1..], Eval(gs, limit, args[0], mem).value.1, xs[1..], after);
  }

  // A zero divisor acts as the largest integer.
  function Divisor(y: int): (d: int)
    ensures d != 0
  {
    if y == 0 then INT64_MAX else y
  }

  // a divided by each of xs in turn, or the remainder by each in turn; None when a quotient is no 64-bit integer.
  function Divided(rem: bool, a: int, xs: seq<int>): Option<int>
    decreases |xs|
  {
    if xs == [] then Some(a)
    else
      var d := Divisor(xs[0]);
      if !IsInt64(TDiv(a, d)) then None else Divided(rem, if rem then TRem(a, d) else TDiv(a, d), xs[1..])
  }

  lemma QuotientFits(a: int64, d: int64)
    requires d != 0
    ensures IsInt64(TDiv(a, d)) <==> !(a == INT64_MIN && d == -1)
    ensures IsInt64(TRem(a, d))
  {
  }

  lemma {:induction false} DivisionFold(gs: seq<Global>, limit: nat, rem: bool, a: int64, args: seq<Expr>, mem: Memory,
                                        xs: seq<int64>, after: Memory)
    requires InOrder(gs, limit, args, mem, Ints(xs), after)
    ensures var r, q := EvalArith(gs, limit, if rem then Modulo else Divide, I(a), args, mem), Divided(rem, a, xs);
            if q.None? then r.None? else IsInt64(q.value) && r == Some((I(q.value), after))
    decreases |args|
  {
    hide Eval, InOrder, TDiv, TRem;
    OperandsTail(gs, limit, args, mem, xs, after);
    if args != [] {
      var d: int64 := Divisor(xs[0]);
      QuotientFits(a, d);
      if IsInt64(TDiv(a, d)) {
        DivisionFold(gs, limit, rem, if rem then TRem(a, d) else TDiv(a, d), args[1..],
                     Eval(gs, limit, args[0], mem).value.1, xs[1..], after);
      }
    }
  }

  // Quotients and remainders are taken from left to right; there is a value exactly if all quotients fit.
  lemma DivisionMeans(gs: seq<Global>, limit: nat, rem: bool, args: seq<Expr>, mem: Memory, xs: seq<int64>,
                      after: Memory)
    requires InOrder(gs, limit, args, mem, Ints(xs), after) && args != []
    ensures var r := Eval(gs, limit, Arith(if rem then Modulo else Divide, args), mem);
            var q := Divided(rem, xs[0], xs[1..]);
            if q.None? then r.None? else IsInt64(q.value) && r == Some((I(q.value), after))
  {
    hide InOrder, Divided;
    OperandsTail(gs, limit, args, mem, xs, after);
    DivisionFold(gs, limit, rem, xs[0], args[1..], Eval(gs, limit, args[0], mem).value.1, xs[1..], after);
  }

  // n is one of xs, and none of them is before it.
  ghost predicate IsExtreme(least: bool, n: int, xs: seq<int>) {
    n in xs && forall i :: 0 <= i < |xs| ==> if least then n <= xs[i] else n >= xs[i]
  }

  lemma {:induction false} ExtremeFold(gs: seq<Global>, limit: nat, least: bool, a: int64, args: seq<Expr>, mem: Memory,
                                       xs: seq<int64>, after: Memory)
    requires InOrder(gs, limit, args, mem, Ints(xs), after)
    ensures var r := EvalArith(gs, limit, if least then Min else Max, I(a), args, mem);
            r.Some? && r.value.1 == after && r.value.0.I? && IsExtreme(least, r.value.0.n, [a] + xs)
    decreases |args|
  {
    hide Eval, InOrder;
    OperandsTail(gs, limit, args, mem, xs, after);
    if args != [] {
      var b := if least then (if a < xs[0] then a else xs[0]) else if a > xs[0] then a else xs[0];
      ExtremeFold(gs, limit, least, b, args[1..], Eval(gs, limit, args[0], mem).value.1, xs[1..], after);
      ExtremeOfMore(least, EvalArith(gs, limit, if least then Min else Max, I(a), args, mem).value.0.n, a, b, xs);
    }
  }

  lemma ExtremeOfMore(least: bool, n: int, a: int64, b: int64, xs: seq<int64>)
    requires xs != [] && IsExtreme(least, n, [b] + xs[1..]) && (b == a || b == xs[0])
    requires if least then b <= a && b <= xs[0] else b >= a && b >= xs[0]
    ensures IsExtreme(least, n, [a] + xs)
  {
    var fewer, more := [b] + xs[1..], [a] + xs;
    var k :| 0 <= k < |fewer| && fewer[k] == n;
    assert n == more[if k > 0 then k + 1 else if b == a then 0 else 1];
    assert fewer[0] == b;
    forall i | 0 <= i < |more| ensures if least then n <= more[i] else n >= more[i] {
      if i > 1 {
        assert more[i] == fewer[i - 1];
      }
    }
  }

  // The least or the greatest operand.
  lemma ExtremeMeans(gs: seq<Global>, limit: nat, least: bool, args: seq<Expr>, mem: Memory, xs: seq<int64>,
                     after: Memory)
    requires InOrder(gs, limit, args, mem, Ints(xs), after) && args != []
    ensures var r := Eval(gs, limit, Arith(if least then Min else Max, args), mem);
            r.Some? && r.value.1 == after && r.value.0.I? && IsExtreme(least, r.value.0.n, xs)
  {
    hide InOrder, IsExtreme;
    OperandsTail(gs, limit, args, mem, xs, after);
    ExtremeFold(gs, limit, least, xs[0], args[1..], Eval(gs, limit, args[0], mem).value.1, xs[1..], after);
    assert [xs[0]] + xs[1..] == xs;
  }

  // Any operation on one integer is that integer.
  lemma OneOperand(gs: seq<Global>, limit: nat, op: ArithOp, arg: Expr, mem: Memory, x: int64, after: Memory)
    requires Eval(gs, limit, arg, mem) == Some((I(x), after))
    ensures Eval(gs, limit, Arith(op, [arg]), mem) == Some((I(x), after))
  {
    hide Eval;
    var xs := [x];
    assert [arg][1..] == [] && xs[1..] == [] && Ints([]) == [];
    match op
    case Plus => SumMeans(gs, limit, [arg], mem, xs, after);
    case Times => ProductMeans(gs, limit, [arg], mem, xs, after);
    case Minus => DifferenceMeans(gs, limit, [arg], mem, xs, after);
    case Divide => DivisionMeans(gs, limit, false, [arg], mem, xs, after);
    case Modulo => DivisionMeans(gs, limit, true, [arg], mem, xs, after);
    case Min => ExtremeMeans(gs, limit, true, [arg], mem, xs, after);
    case Max => ExtremeMeans(gs, limit, false, [arg], mem, xs, after);
  }

  // ---------- comparison ----------

  // Integers are ordered as they are, and false is before true.
  predicate Precedes(a: Value, b: Value)
    requires a.I? == b.I?
  {
    if a.I? then a.n < b.n else !a.b && b.b
  }

  // The comparisons are those of one total order.
  lemma ComparisonMeans(gs: seq<Global>, limit: nat, p: Predicate, x: Expr, y: Expr, mem: Memory, a: Value, b: Value,
                        after: Memory)
    requires InOrder(gs, limit, [x, y], mem, [a, b], after) && a.I? == b.I?
    ensures var r := Eval(gs, limit, Cmp(p, x, y), mem);
            && r.Some? && r.value.1 == after && r.value.0.B?
            && match p
               case Eq => r.value.0.b <==> a == b
               case Ne => r.value.0.b <==> a != b
               case Slt => r.value.0.b <==> Precedes(a, b)
               case Sle => r.value.0.b <==> Precedes(a, b) || a == b
               case Sgt => r.value.0.b <==> Precedes(b, a)
               case Sge => r.value.0.b <==> Precedes(b, a) || a == b
  {
    assert [x, y][1..] == [y] && [y][1..] == [] && [a, b][1..] == [b] && [b][1..] == [];
    var m := Eval(gs, limit, x, mem).value.1;
    assert InOrder(gs, limit, [y], m, [b], after);
    assert InOrder(gs, limit, [], Eval(gs, limit, y, m).value.1, [], after);
    assert Eval(gs, limit, y, m) == Some((b, after));
  }

  // ---------- connectives ----------

  // The first of k operands.
  lemma FirstOfOrder(gs: seq<Global>, limit: nat, args: seq<Expr>, k: nat, mem: Memory, bs: seq<bool>, after: Memory)
    requires 0 < k <= |args| && |bs| == k && InOrder(gs, limit, args[..k], mem, Bools(bs), after)
    ensures var r := Eval(gs, limit, args[0], mem);
            && r.Some? && r.value.0 == B(bs[0])
            && InOrder(gs, limit, args[1..][..k - 1], r.value.1, Bools(bs[1..]), after)
  {
    hide Eval;
    assert args[..k][1..] == args[1..][..k - 1] && args[..k][0] == args[0];
    assert Bools(bs)[1..] == Bools(bs[1..]);
  }

  lemma NothingInOrder(gs: seq<Global>, limit: nat, args: seq<Expr>, mem: Memory, vs: seq<Value>, after: Memory)
    requires InOrder(gs, limit, args[..0], mem, vs, after)
    ensures after == mem
  {
    hide Eval;
  }

  // bs[0] is the value so far.
  lemma {:induction false} LogicFold(gs: seq<Global>, limit: nat, conj: bool, args: seq<Expr>, k: nat, mem: Memory,
                                     bs: seq<bool>, after: Memory)
    requires k <= |args| && |bs| == k + 1 && InOrder(gs, limit, args[..k], mem, Bools(bs[1..]), after)
    requires forall i :: 0 <= i < k ==> bs[i] == conj
    requires k == |args| || bs[k] != conj
    ensures EvalLogic(gs, limit, conj, B(bs[0]), args, mem) == Some((B(bs[k]), after))
    decreases k
  {
    hide Eval, InOrder, Bools;
    if k > 0 {
      FirstOfOrder(gs, limit, args, k, mem, bs[1..], after);
      LogicFold(gs, limit, conj, args[1..], k - 1, Eval(gs, limit, args[0], mem).value.1, bs[1..], after);
    } else {
      NothingInOrder(gs, limit, args, mem, Bools(bs[1..]), after);
    }
  }

  // The first k operands are evaluated, the last of them being the first that decides, or the last of all.
  lemma LogicMeans(gs: seq<Global>, limit: nat, conj: bool, args: seq<Expr>, k: nat, mem: Memory, bs: seq<bool>,
                   after: Memory)
    requires 1 <= k <= |args| && |bs| == k && InOrder(gs, limit, args[..k], mem, Bools(bs), after)
    requires forall i :: 0 <= i < k - 1 ==> bs[i] == conj
    requires k == |args| || bs[k - 1] != conj
    ensures var all := forall i :: 0 <= i < k ==> bs[i];
            var any := exists i :: 0 <= i < k && bs[i];
            Eval(gs, limit, Logic(conj, args), mem) == Some((B(if conj then all else any), after))
  {
    hide InOrder, Bools;
    FirstOfOrder(gs, limit, args, k, mem, bs, after);
    LogicFold(gs, limit, conj, args[1..], k - 1, Eval(gs, limit, args[0], mem).value.1, bs, after);
    assert bs[k - 1] == if conj then forall i :: 0 <= i < k ==> bs[i] else exists i :: 0 <= i < k && bs[i];
  }

  lemma NegationMeans(gs: seq<Global>, limit: nat, x: Expr, mem: Memory, b: bool, after: Memory)
    requires Eval(gs, limit, x, mem) == Some((B(b), after))
    ensures Eval(gs, limit, Negate(x), mem) == Some((B(!b), after))
    ensures Eval(gs, limit, Negate(Negate(x)), mem) == Eval(gs, limit, x, mem)
  {
  }

  // A conditional is the arm that its condition picks.
  lemma ConditionalMeans(gs: seq<Global>, limit: nat, c: Expr, t: Expr, f: Expr, mem: Memory, b: bool, after: Memory)
    requires Eval(gs, limit, c, mem) == Some((B(b), after))
    ensures Eval(gs, limit, If(c, t, f), mem) == Eval(gs, limit, if b then t else f, after)
  {
  }

  // ---------- membership ----------

  // The subject in front of each of the candidates.
  function Paired(subject: Expr, candidates: seq<Expr>): seq<Expr> {
    if candidates == [] then [] else [subject, candidates[0]] + Paired(subject, candidates[1..])
  }

  // The first k candidates are compared, the last of them being the first that matches, or the last of all.
  ghost predicate Compared(gs: seq<Global>, limit: nat, args: seq<Expr>, j: nat, k: nat, mem: Memory, vs: seq<Value>,
                           after: Memory)
  {
    && 1 <= j <= j + k <= |args| && |vs| == 2 * k
    && InOrder(gs, limit, Paired(args[0], args[j..j + k]), mem, vs, after)
    && (forall i :: 0 <= i < k ==> vs[2 * i].I? == vs[2 * i + 1].I?)
    && (forall i :: 0 <= i < k - 1 ==> vs[2 * i] != vs[2 * i + 1])
    && (j + k == |args| || (k > 0 && vs[2 * k - 2] == vs[2 * k - 1]))
  }

  lemma ComparedTail(gs: seq<Global>, limit: nat, args: seq<Expr>, j: nat, k: nat, mem: Memory, vs: seq<Value>,
                     after: Memory)
    requires Compared(gs, limit, args, j, k, mem, vs, after) && k > 0
    ensures Eval(gs, limit, args[0], mem).Some?
    ensures var r := Eval(gs, limit, args[0], mem).value;
            var q := Eval(gs, limit, args[j], r.1);
            && q.Some? && r.0 == vs[0] && q.value.0 == vs[1] && vs[0].I? == vs[1].I?
            && if k > 1 then vs[0] != vs[1] && Compared(gs, limit, args, j + 1, k - 1, q.value.1, vs[2..], after)
               else q.value.1 == after && (j + 1 == |args| || vs[0] == vs[1])
  {
    hide Eval;
    var pairs := Paired(args[0], args[j..j + k]);
    assert args[j..j + k][1..] == args[j + 1..j + k];
    assert pairs[1..] == [args[j]] + Paired(args[0], args[j + 1..j + k]);
    assert pairs[1..][1..] == Paired(args[0], args[j + 1..j + k]);
    assert vs[1..][1..] == vs[2..];
    var r := Eval(gs, limit, args[0], mem).value;
    assert InOrder(gs, limit, pairs[1..], r.1, vs[1..], after);
    var q := Eval(gs, limit, args[j], r.1).value;
    assert InOrder(gs, limit, pairs[1..][1..], q.1, vs[1..][1..], after);
    assert vs[2 * 0].I? == vs[2 * 0 + 1].I?;
    if k > 1 {
      assert vs[2 * 0] != vs[2 * 0 + 1];
      var rest := vs[2..];
      forall i | 0 <= i < k - 1 ensures rest[2 * i].I? == rest[2 * i + 1].I? {
        assert vs[2 * (i + 1)].I? == vs[2 * (i + 1) + 1].I?;
      }
      forall i | 0 <= i < k - 2 ensures rest[2 * i] != rest[2 * i + 1] {
        assert vs[2 * (i + 1)] != vs[2 * (i + 1) + 1];
      }
    }
  }

  lemma {:induction false} InFold(gs: seq<Global>, limit: nat, args: seq<Expr>, j: nat, k: nat, mem: Memory,
                                  vs: seq<Value>, after: Memory)
    requires Compared(gs, limit, args, j, k, mem, vs, after) && k > 0
    ensures EvalIn(gs, limit, args, j, mem) == Some((B(vs[2 * k - 2] == vs[2 * k - 1]), after))
    decreases k
  {
    hide Eval, Compared;
    ComparedTail(gs, limit, args, j, k, mem, vs, after);
    ComparedSize(gs, limit, args, j, k, mem, vs, after);
    var r := Eval(gs, limit, args[0], mem).value;
    var q := Eval(gs, limit, args[j], r.1).value;
    assert CmpResult(Eq, vs[0], q) == Some((B(vs[0] == vs[1]), q.1));
    if k > 1 {
      InFold(gs, limit, args, j + 1, k - 1, q.1, vs[2..], after);
    } else if j + 1 == |args| {
      assert EvalIn(gs, limit, args, j + 1, q.1) == Some((B(false), q.1));
    }
  }

  lemma ComparedSize(gs: seq<Global>, limit: nat, args: seq<Expr>, j: nat, k: nat, mem: Memory, vs: seq<Value>,
                     after: Memory)
    requires Compared(gs, limit, args, j, k, mem, vs, after)
    ensures 1 <= j <= j + k <= |args| && |vs| == 2 * k
  {
  }

  // Membership holds exactly if the last candidate compared matches the subject, which is evaluated for each.
  lemma MembershipMeans(gs: seq<Global>, limit: nat, args: seq<Expr>, k: nat, mem: Memory, vs: seq<Value>,
                        after: Memory)
    requires Compared(gs, limit, args, 1, k, mem, vs, after) && k > 0
    ensures |vs| == 2 * k
    ensures Eval(gs, limit, In(args), mem) == Some((B(exists i :: 0 <= i < k && vs[2 * i] == vs[2 * i + 1]), after))
  {
    InFold(gs, limit, args, 1, k, mem, vs, after);
    assert vs[2 * k - 2] == vs[2 * k - 1] ==> vs[2 * (k - 1)] == vs[2 * (k - 1) + 1];
  }
}
