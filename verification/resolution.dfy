/**
 Type resolution as it runs: a walk over expression objects that fills in their types in place.
 */
module Resolution {
  import opened Basics
  import opened IR
  import opened Expressions

  // The type an expression is created with; undefined for references and where it depends on the operands.
  function DeclaredType(e: Expr): Option<Type> {
    match e
    case Lit(v) => Some(TypeOf(v))
    case Global(_) => None
    case Arith(_, _) => None
    case If(_, _, _) => None
    case _ => Some(TBool)
  }

  // The type of a formal parameter; undefined where any type is taken.
  function FormalType(e: Expr, i: nat): Option<Type> {
    match e
    case Logic(_, _) => Some(TBool)
    case Negate(_) => Some(TBool)
    case If(_, _, _) => if i == 0 then Some(TBool) else None
    case _ => None
  }

  // An expression object: the expression it stands for, in the definition of global number limit, with the objects
  // of its operands and, for a reference, of what it refers to.
  class Node {
    const e: Expr
    const limit: nat
    const subs: seq<Node>
    const ref: Node?
    // Undefined until it is resolved.
    var ty: Option<Type>
    var undefRemoved: bool

    constructor (e: Expr, limit: nat, subs: seq<Node>, ref: Node?)
      ensures this.e == e && this.limit == limit && this.subs == subs && this.ref == ref
      ensures ty == DeclaredType(e) && !undefRemoved
    {
      this.e, this.limit, this.subs, this.ref := e, limit, subs, ref;
      ty, undefRemoved := DeclaredType(e), false;
    }
  }

  class Analyzer {
    const gs: seq<Global>
    // The definitions of the globals.
    const defs: seq<Node>
    // All expression objects of lazy definitions.
    ghost const nodes: set<Node>

    // The objects are the parse trees of the definitions.
    ghost predicate Built() {
      && |defs| == |gs|
      && (forall g :: 0 <= g < |gs| && gs[g].Lazy? ==> defs[g] in nodes && defs[g].e == gs[g].def && defs[g].limit == g)
      && (forall g :: 0 <= g < |gs| && gs[g].Eager? ==> defs[g] !in nodes)
      && (forall n :: n in nodes ==> BuiltNode(n))
    }

    ghost predicate BuiltNode(n: Node) {
      && n.limit <= |gs| && |n.subs| == |Operands(n.e)|
      && (forall i :: 0 <= i < |n.subs| ==>
                        n.subs[i] in nodes && n.subs[i].e == Operands(n.e)[i] && n.subs[i].limit == n.limit)
      && (n.e.Global? ==> n.e.g < n.limit && n.e.g < |defs| && n.ref == defs[n.e.g])
    }

    // A finished object has the resolved type, and so have its operands; an unfinished one is as it was created.
    ghost predicate NodeState(n: Node)
      reads n, n.subs
    {
      if n.undefRemoved then
        n.ty.Some? && n.ty == Resolve(gs, n.limit, n.e) && forall i :: 0 <= i < |n.subs| ==> n.subs[i].undefRemoved
      else n.ty == DeclaredType(n.e)
    }

    // The states of all objects; the globals before limit are finished.
    ghost predicate State(limit: nat)
      reads nodes, defs
    {
      && Built()
      && (forall n :: n in nodes ==> NodeState(n))
      && (forall g :: 0 <= g < |gs| && gs[g].Eager? ==> defs[g].ty == Some(gs[g].ty))
      && (forall g :: 0 <= g < |gs| && g < limit && gs[g].Lazy? ==> defs[g].undefRemoved)
    }

    // Finished objects do not change any more.
    twostate predicate Kept()
      reads nodes
    {
      forall n :: n in nodes && old(n.undefRemoved) ==> n.undefRemoved && n.ty == old(n.ty)
    }

    // Whether all objects have the type of the first one.
    method SameTypes(subs: seq<Node>) returns (same: bool)
      ensures same <==> forall i :: 0 <= i < |subs| ==> subs[i].ty == subs[0].ty
    {
      var i := 1;
      while i < |subs|
        invariant 1 <= i && forall k :: 0 <= k < i && k < |subs| ==> subs[k].ty == subs[0].ty
      {
        if subs[i].ty != subs[0].ty {
          return false;
        }
        i := i + 1;
      }
      same := true;
    }

    // Whether the operands fit the formal parameters.
    method FormalsFit(n: Node) returns (fit: bool)
      ensures fit <==> forall i :: 0 <= i < |n.subs| && FormalType(n.e, i).Some? ==> n.subs[i].ty == FormalType(n.e, i)
    {
      var i := 0;
      while i < |n.subs|
        invariant i <= |n.subs|
        invariant forall k :: 0 <= k < i && FormalType(n.e, k).Some? ==> n.subs[k].ty == FormalType(n.e, k)
      {
        var aty := FormalType(n.e, i);
        if aty.Some? && n.subs[i].ty != aty {
          return false;
        }
        i := i + 1;
      }
      fit := true;
    }

    // Resolution from the types of the operands.
    ghost predicate Accepts(e: Expr, tys: seq<Option<Type>>, ty: Option<Type>) {
      && (forall i :: 0 <= i < |tys| && FormalType(e, i).Some? ==> tys[i] == FormalType(e, i))
      && match e
         case Lit(v) => ty == Some(TypeOf(v))
         case Global(_) => true
         case Arith(_, _) => tys != [] && ty == tys[0] && forall i :: 0 <= i < |tys| ==> tys[i] == tys[0]
         case If(_, _, _) => |tys| == 3 && ty == tys[1] && tys[1] == tys[2]
         case In(_) => ty == Some(TBool) && forall i :: 0 <= i < |tys| ==> tys[i] == tys[0]
         case _ => ty == Some(TBool) && tys != [] && forall i :: 0 <= i < |tys| ==> tys[i] == tys[0]
    }

    ghost function Types(limit: nat, es: seq<Expr>): (r: seq<Option<Type>>)
      ensures |r| == |es| && forall i :: 0 <= i < |es| ==> r[i] == Resolve(gs, limit, es[i])
    {
      if es == [] then [] else [Resolve(gs, limit, es[0])] + Types(limit, es[1..])
    }

    lemma ResolveStep(limit: nat, e: Expr)
      requires !e.Global?
      ensures Resolve(gs, limit, e).Some? ==>
                forall i :: 0 <= i < |Operands(e)| ==> Resolve(gs, limit, Operands(e)[i]).Some?
      ensures (forall i :: 0 <= i < |Operands(e)| ==> Resolve(gs, limit, Operands(e)[i]).Some?) ==>
                forall ty: Option<Type> :: Accepts(e, Types(limit, Operands(e)), ty) ==> Resolve(gs, limit, e) == ty
      ensures Resolve(gs, limit, e).Some? ==> Accepts(e, Types(limit, Operands(e)), Resolve(gs, limit, e))
    {
    }

    lemma OperandsSmaller(e: Expr)
      ensures forall i :: 0 <= i < |Operands(e)| ==> Operands(e)[i] < e
    {
    }

    constructor (gs: seq<Global>, defs: seq<Node>, ghost nodes: set<Node>)
      ensures this.gs == gs && this.defs == defs && this.nodes == nodes
    {
      this.gs, this.defs, this.nodes := gs, defs, nodes;
    }

    // Resolves the operands, in order, up to the first that cannot be resolved.
    method RemoveOperands(n: Node) returns (ok: bool)
      requires State(n.limit) && n in nodes && !n.undefRemoved
      modifies nodes
      ensures State(n.limit) && Kept() && n.undefRemoved == old(n.undefRemoved) && n.ty == old(n.ty)
      ensures ok <==> forall i :: 0 <= i < |n.subs| ==> Resolve(gs, n.limit, Operands(n.e)[i]).Some?
      ensures ok ==> forall i :: 0 <= i < |n.subs| ==> n.subs[i].undefRemoved
      ensures forall x :: x in nodes && !(x.e < n.e) ==> x.ty == old(x.ty) && x.undefRemoved == old(x.undefRemoved)
      decreases n.e, 0
    {
      hide Resolve, Operands, DeclaredType;
      assert BuiltNode(n);
      OperandsSmaller(n.e);
      var i := 0;
      while i < |n.subs|
        invariant i <= |n.subs| && State(n.limit) && Kept()
        invariant n.undefRemoved == old(n.undefRemoved) && n.ty == old(n.ty)
        invariant forall x :: x in nodes && !(x.e < n.e) ==> x.ty == old(x.ty) && x.undefRemoved == old(x.undefRemoved)
        invariant forall k :: 0 <= k < i ==> n.subs[k].undefRemoved && Resolve(gs, n.limit, Operands(n.e)[k]).Some?
      {
        assert n.subs[i] in nodes;
        var done := RemoveUndef(n.subs[i]);
        if !done {
          return false;
        }
        i := i + 1;
      }
      ok := true;
    }

    // Finds the type of an expression whose operands are finished.
    method TypeOfNode(n: Node) returns (ty: Option<Type>)
      requires State(n.limit) && n in nodes && !n.undefRemoved
      requires forall i :: 0 <= i < |n.subs| ==> n.subs[i].undefRemoved
      ensures ty == Resolve(gs, n.limit, n.e)
    {
      hide Resolve, State;
      StateOf(n);
      OperandTypes(n);
      if !n.e.Global? {
        ResolveStep(n.limit, n.e);
      }
      ty := n.ty;
      match n.e {
        case If(_, _, _) =>
          if n.subs[0].ty != Some(TBool) || n.subs[1].ty != n.subs[2].ty {
            return None;
          }
          ty := n.subs[1].ty;
        case Arith(_, _) =>
          if |n.subs| == 0 {
            return None;
          }
          var same := SameTypes(n.subs);
          if !same {
            return None;
          }
          ty := n.subs[0].ty;
        case Cmp(_, _, _) =>
          var same := SameTypes(n.subs);
          if !same {
            return None;
          }
        case Logic(_, _) =>
          if |n.subs| == 0 {
            return None;
          }
          var same := SameTypes(n.subs);
          if !same {
            return None;
          }
        case In(_) =>
          var same := SameTypes(n.subs);
          if !same {
            return None;
          }
        case Negate(_) =>
        case Lit(_) =>
        case Global(g) =>
          ReferenceType(n);
          ty := n.ref.ty;
          return;
      }
      var fit := FormalsFit(n);
      if !fit {
        return None;
      }
      assert Accepts(n.e, Types(n.limit, Operands(n.e)), ty);
    }

    lemma StateOf(n: Node)
      requires State(n.limit) && n in nodes
      ensures BuiltNode(n) && NodeState(n)
    {
    }

    // The types of finished operands.
    lemma OperandTypes(n: Node)
      requires State(n.limit) && n in nodes && forall i :: 0 <= i < |n.subs| ==> n.subs[i].undefRemoved
      ensures var tys := Types(n.limit, Operands(n.e));
              |n.subs| == |tys| && forall i :: 0 <= i < |n.subs| ==> n.subs[i].ty == tys[i] && tys[i].Some?
    {
      hide Resolve;
      assert BuiltNode(n);
      forall i | 0 <= i < |n.subs|
        ensures n.subs[i].ty == Types(n.limit, Operands(n.e))[i] && n.subs[i].ty.Some?
      {
        assert NodeState(n.subs[i]);
      }
    }

    lemma ReferenceType(n: Node)
      requires State(n.limit) && n in nodes && n.e.Global?
      ensures n.ref != null && n.ref.ty == Resolve(gs, n.limit, n.e) && n.ref.ty.Some?
    {
      assert BuiltNode(n);
      var g := n.e.g;
      if gs[g].Lazy? {
        assert NodeState(defs[g]);
      }
    }

    // Resolves an expression. A finished one is left as it is.
    method RemoveUndef(n: Node) returns (ok: bool)
      requires State(n.limit) && n in nodes
      modifies nodes
      ensures State(n.limit) && Kept()
      ensures ok <==> Resolve(gs, n.limit, n.e).Some?
      ensures ok ==> n.undefRemoved && n.ty == Resolve(gs, n.limit, n.e)
      ensures old(n.undefRemoved) ==> ok && forall x :: x in nodes ==>
                                                          x.ty == old(x.ty) && x.undefRemoved == old(x.undefRemoved)
      ensures forall x :: x in nodes && x != n && !(x.e < n.e) ==>
                            x.ty == old(x.ty) && x.undefRemoved == old(x.undefRemoved)
      decreases n.e, 1
    {
      hide Resolve, Operands, DeclaredType;
      if n.undefRemoved {
        assert NodeState(n);
        return true;
      }
      assert BuiltNode(n);
      ok := RemoveOperands(n);
      if !ok {
        RefusedOperand(n);
        return;
      }
      var ty := TypeOfNode(n);
      if ty.None? {
        return false;
      }
      n.ty := ty;
      n.undefRemoved := true;
    }

    // Resolves all definitions in the order of their declaration. A second run finds everything as it is.
    method Analyze() returns (ok: bool)
      requires State(0)
      modifies nodes
      ensures State(0) && Kept()
      ensures ok <==> forall g :: 0 <= g < |gs| ==> GlobalType(gs, g).Some?
      ensures ok ==> State(|gs|) && forall g :: 0 <= g < |gs| ==> defs[g].ty == GlobalType(gs, g)
      ensures ok ==> forall g :: 0 <= g < |gs| && gs[g].Lazy? ==> AllTyped(defs[g])
      ensures old(State(|gs|)) ==> forall x :: x in nodes ==> x.ty == old(x.ty) && x.undefRemoved == old(x.undefRemoved)
    {
      hide Resolve, Operands, DeclaredType, AllTyped;
      ghost var finished := State(|gs|);
      var g := 0;
      while g < |gs|
        invariant g <= |gs| && State(g) && Kept()
        invariant forall h :: 0 <= h < g ==> GlobalType(gs, h).Some? && defs[h].ty == GlobalType(gs, h)
        invariant finished ==> State(|gs|)
        invariant finished ==> forall x :: x in nodes ==> x.ty == old(x.ty) && x.undefRemoved == old(x.undefRemoved)
      {
        if gs[g].Lazy? {
          var done := RemoveUndef(defs[g]);
          if !done {
            assert GlobalType(gs, g).None?;
            return false;
          }
        }
        g := g + 1;
      }
      ok := true;
      DefinitionsTyped();
    }

    lemma DefinitionsTyped()
      requires State(|gs|)
      ensures forall g :: 0 <= g < |gs| && gs[g].Lazy? ==> AllTyped(defs[g])
    {
      hide Resolve, AllTyped;
      forall h | 0 <= h < |gs| && gs[h].Lazy? ensures AllTyped(defs[h]) {
        NothingUndefined(defs[h], |gs|);
      }
    }

    // The object and everything below it has a type, the resolved one.
    ghost predicate AllTyped(n: Node)
      requires Built() && n in nodes
      reads nodes
      decreases n.e
    {
      assert BuiltNode(n);
      OperandsSmaller(n.e);
      && n.undefRemoved && n.ty.Some? && n.ty == Resolve(gs, n.limit, n.e)
      && forall i :: 0 <= i < |n.subs| ==> AllTyped(n.subs[i])
    }

    // Nothing below a finished expression is left undefined.
    lemma {:induction false} NothingUndefined(n: Node, limit: nat)
      requires State(limit) && n in nodes && n.undefRemoved
      ensures AllTyped(n)
      decreases n.e
    {
      hide Resolve;
      assert NodeState(n) && BuiltNode(n);
      OperandsSmaller(n.e);
      forall i | 0 <= i < |n.subs| ensures AllTyped(n.subs[i]) {
        NothingUndefined(n.subs[i], limit);
      }
    }

    lemma RefusedOperand(n: Node)
      requires State(n.limit) && n in nodes
      requires !forall i :: 0 <= i < |n.subs| ==> Resolve(gs, n.limit, Operands(n.e)[i]).Some?
      ensures Resolve(gs, n.limit, n.e).None?
    {
      hide Resolve, Accepts;
      assert BuiltNode(n);
      if !n.e.Global? {
        ResolveStep(n.limit, n.e);
      }
    }
  }
}
