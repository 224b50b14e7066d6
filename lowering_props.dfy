/**
 * What the walk does to the generator's counters: inside one function the
 * temporary counters only grow, so every temporary drawn while an expression
 * or statement is lowered is new, and since no counter ever goes back no
 * label is handed out twice.
 */
module LoweringProps {
  import opened Wrappers
  import opened Scope
  import opened CastNodes
  import opened CodeObjects
  import opened Alloc
  import opened Ast
  import opened Lowering
  import opened Freshness

  /**
   * Lowering an expression or statement, whether it succeeds or fails,
   * never moves a counter back and stays in the current function.
   */
  lemma {:induction false} LowerExtends(g: Gen, n: Node, sameType: (Option<InnerType>, Option<InnerType>) -> bool)
    requires FunctionFree(n)
    ensures Extends(g, Lower(g, n, sameType).gen)
    decreases n, 2
  {
    match n
    case VarRef(_, _) =>
    case IntLit(_) =>
    case FloatLit(_) =>
    case BinaryOp(_, _, _, _) => TwoChildrenExtend(g, n, sameType);
    case Assign(_, _) => TwoChildrenExtend(g, n, sameType);
    case Cond(_, _, _) => TwoChildrenExtend(g, n, sameType);
    case If(_, _, _) => BlockExtends(g, n, sameType);
    case While(_, _) => BlockExtends(g, n, sameType);
    case StatementList(_) => BlockExtends(g, n, sameType);
    case Call(_, _, _) => BlockExtends(g, n, sameType);
    case PtrDeref(_, _) => OneChildExtends(g, n, sameType);
    case AddrOf(_, _) => OneChildExtends(g, n, sameType);
    case MallocCall(_) => OneChildExtends(g, n, sameType);
    case FreeCall(_) => OneChildExtends(g, n, sameType);
    case Cast(_) => OneChildExtends(g, n, sameType);
    case UnaryOp(_, _, _) => OneChildExtends(g, n, sameType);
    case Read(_, _) => OneChildExtends(g, n, sameType);
    case Write(_) => OneChildExtends(g, n, sameType);
    case Return(_, _) => OneChildExtends(g, n, sameType);
  }

  /** `LowerExtends` for the nodes with one child expression. */
  lemma {:induction false} OneChildExtends(g: Gen, n: Node, sameType: (Option<InnerType>, Option<InnerType>) -> bool)
    requires n.Cast? || n.UnaryOp? || n.Read? || n.Write? || n.Return?
      || n.PtrDeref? || n.AddrOf? || n.MallocCall? || n.FreeCall?
    requires FunctionFree(n)
    ensures Extends(g, Lower(g, n, sameType).gen)
    decreases n, 1
  {
    if !(n.Return? && n.retExpr.None?) {
      var child := if n.Cast? then n.cast.expr else if n.Return? then n.retExpr.value
        else if n.Read? then n.target else n.expr;
      LowerExtends(g, child, sameType);
    }
  }

  /** `LowerExtends` for binary operators, assignment and comparison. */
  lemma {:induction false} TwoChildrenExtend(g: Gen, n: Node, sameType: (Option<InnerType>, Option<InnerType>) -> bool)
    requires n.BinaryOp? || n.Assign? || n.Cond?
    requires FunctionFree(n)
    ensures Extends(g, Lower(g, n, sameType).gen)
    decreases n, 1
  {
    LowerExtends(g, n.left, sameType);
    var l := Lower(g, n.left, sameType);
    if l.res.Ok? {
      LowerExtends(l.gen, n.right, sameType);
    }
  }

  /** `LowerExtends` for `if`, `while`, statement lists and calls. */
  lemma {:induction false} BlockExtends(g: Gen, n: Node, sameType: (Option<InnerType>, Option<InnerType>) -> bool)
    requires n.If? || n.While? || n.StatementList? || n.Call?
    requires FunctionFree(n)
    ensures Extends(g, Lower(g, n, sameType).gen)
    decreases n, 1
  {
    if n.StatementList? {
      LowerAllExtends(g, n.stmts, sameType);
    } else if n.Call? {
      LowerAllExtends(g, n.args, sameType);
    } else {
      LowerExtends(g, n.cond, sameType);
      var c := Lower(g, n.cond, sameType);
      if c.res.Ok? {
        if n.While? {
          LowerExtends(c.gen, n.body, sameType);
        } else {
          LowerExtends(c.gen, n.thenList, sameType);
          var t := Lower(c.gen, n.thenList, sameType);
          if t.res.Ok? {
            LowerExtends(t.gen, n.elseList, sameType);
          }
        }
      }
    }
  }

  /** Lowering function-free siblings never moves a counter back. */
  lemma {:induction false} LowerAllExtends(g: Gen, ns: seq<Node>, sameType: (Option<InnerType>, Option<InnerType>) -> bool)
    requires forall i :: 0 <= i < |ns| ==> FunctionFree(ns[i])
    ensures Extends(g, LowerAll(g, ns, sameType).gen)
    decreases ns, 1
  {
    if ns != [] {
      var pre := LowerAll(g, ns[..|ns| - 1], sameType);
      LowerAllExtends(g, ns[..|ns| - 1], sameType);
      if pre.res.Ok? {
        LowerExtends(pre.gen, ns[|ns| - 1], sameType);
      }
    }
  }

  /**
   * Whatever a function-free node lowers to, the next temporary drawn after
   * it is none of the temporaries in use before it.
   */
  lemma LowerKeepsTempsFresh(g: Gen, n: Node, sameType: (Option<InnerType>, Option<InnerType>) -> bool, t: InnerType)
    requires FunctionFree(n) && IsScalar(t)
    ensures NewTemp(Lower(g, n, sameType).gen, t).Extract().0 !in UsedTemps(g)
  {
    LowerExtends(g, n, sameType);
    LaterTempsFresh(g, Lower(g, n, sameType).gen, t);
  }

  /**
   * A label drawn before any node, function or not, is lowered is not drawn
   * again after it: the program-wide label counters make labels unique.
   */
  lemma LowerNeverRepeatsLabels(g: Gen, n: Node, sameType: (Option<InnerType>, Option<InnerType>) -> bool)
    ensures var (l, g1) := NewUnknownLabel(g); NewUnknownLabel(Lower(g1, n, sameType).gen).0 != l
    ensures var (l, g1) := NewLoopLabel(g); NewLoopLabel(Lower(g1, n, sameType).gen).0 != l
    ensures var (l, g1) := NewElseLabel(g); NewElseLabel(Lower(g1, n, sameType).gen).0 != l
    ensures var (l, g1) := NewOutLabel(g); NewOutLabel(Lower(g1, n, sameType).gen).0 != l
  {
    LaterLabelsDiffer(g, Lower(NewUnknownLabel(g).1, n, sameType).gen);
    LaterLabelsDiffer(g, Lower(NewLoopLabel(g).1, n, sameType).gen);
    LaterLabelsDiffer(g, Lower(NewElseLabel(g).1, n, sameType).gen);
    LaterLabelsDiffer(g, Lower(NewOutLabel(g).1, n, sameType).gen);
  }
}
