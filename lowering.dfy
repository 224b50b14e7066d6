/**
 * The post-order walk that drives the generator: every child is lowered,
 * left to right, before its parent's `postprocess`; a function's
 * `preprocess` runs before its body. The generator state is threaded
 * through the whole walk, so the label counters are program-wide while the
 * temporary counters restart at each function.
 */
module Lowering {
  import opened Wrappers
  import opened Scope
  import opened CastNodes
  import opened CodeObjects
  import opened Alloc
  import opened Ast
  import opened Expressions
  import opened Control
  import opened Calls

  /** The static types of a call's argument nodes. */
  function ArgTypes(args: seq<Node>): (r: seq<Option<InnerType>>)
    ensures |r| == |args| && forall i :: 0 <= i < |args| ==> r[i] == NodeType(args[i])
  {
    if args == [] then [] else ArgTypes(args[..|args| - 1]) + [NodeType(args[|args| - 1])]
  }

  /**
   * Lowering a node from state `g`. `sameType` is the front end's type
   * identity used by the call type check.
   */
  function Lower(g: Gen, n: Node, sameType: (Option<InnerType>, Option<InnerType>) -> bool): (r: Out<CodeObject>)
    ensures LabelsExtend(g, r.gen)
    decreases n, 1
  {
    match n
    case VarRef(sym, ty) => Done(PostVar(sym, ty), g)
    case IntLit(v) => var (co, g1) := PostIntLit(g, v); Done(co, g1)
    case FloatLit(v) => var (co, g1) := PostFloatLit(g, v); Done(co, g1)
    case Cast(c) =>
      var (e, g1) :- Lower(g, c.expr, sameType);
      PostCast(g1, c.ty, e)
    case BinaryOp(_, op, left, right) =>
      var (l, g1) :- Lower(g, left, sameType);
      var (r, g2) :- Lower(g1, right, sameType);
      PostBinaryOp(g2, op, l, r)
    case UnaryOp(_, op, expr) =>
      var (e, g1) :- Lower(g, expr, sameType);
      PostUnaryOp(g1, op, e)
    case Assign(left, right) =>
      var (l, g1) :- Lower(g, left, sameType);
      var (r, g2) :- Lower(g1, right, sameType);
      PostAssign(g2, l, r)
    case StatementList(stmts) =>
      var (cos, g1) :- LowerAll(g, stmts, sameType);
      Done(PostStatementList(cos), g1)
    case Read(ty, target) =>
      var (t, g1) :- Lower(g, target, sameType);
      PostRead(g1, ty, t)
    case Write(expr) =>
      var (e, g1) :- Lower(g, expr, sameType);
      PostWrite(g1, NodeType(expr), e)
    case Cond(op, left, right) =>
      var (l, g1) :- Lower(g, left, sameType);
      var (r, g2) :- Lower(g1, right, sameType);
      PostCond(g2, Reversed(op), l, r)
    case If(cond, thenList, elseList) =>
      var (c, g1) :- Lower(g, cond, sameType);
      var (t, g2) :- Lower(g1, thenList, sameType);
      var (e, g3) :- Lower(g2, elseList, sameType);
      PostIf(g3, c, t, e)
    case While(cond, body) =>
      var (c, g1) :- Lower(g, cond, sameType);
      var (b, g2) :- Lower(g1, body, sameType);
      PostWhile(g2, c, b)
    case Return(funcTy, retExpr) =>
      if retExpr.None? then PostReturn(g, funcTy, None)
      else
        var (co, g1) :- Lower(g, retExpr.value, sameType);
        PostReturn(g1, funcTy, Some(co))
    case Call(ty, name, args) =>
      var (cos, g1) :- LowerAll(g, args, sameType);
      PostCall(g1, ty, name, ArgTypes(args), cos, sameType)
    case PtrDeref(ty, expr) =>
      var (e, g1) :- Lower(g, expr, sameType);
      PostPtrDeref(g1, ty, e)
    case AddrOf(ty, expr) =>
      var (e, g1) :- Lower(g, expr, sameType);
      var (co, g2) := PostAddrOf(g1, ty, e);
      Done(co, g2)
    case MallocCall(expr) =>
      var (e, g1) :- Lower(g, expr, sameType);
      PostMalloc(g1, INFER, e)
    case FreeCall(expr) =>
      var (e, g1) :- Lower(g, expr, sameType);
      PostFree(g1, e)
    case Function(name, numLocals, body) =>
      var g1 := Preprocess(g, name);
      var (b, g2) :- Lower(g1, body, sameType);
      Done(PostFunction(g2, name, numLocals, b), g2)
    case FunctionList(funcs) =>
      var (cos, g1) :- LowerAll(g, funcs, sameType);
      Done(PostFunctionList(cos), g1)
  }

  /** Lowering a list of sibling nodes left to right: one code object per node. */
  function LowerAll(g: Gen, ns: seq<Node>, sameType: (Option<InnerType>, Option<InnerType>) -> bool): (r: Out<seq<CodeObject>>)
    ensures r.res.Ok? ==> |r.res.value| == |ns|
    ensures LabelsExtend(g, r.gen)
    decreases ns, 0
  {
    if ns == [] then Done([], g)
    else
      var (pre, g1) :- LowerAll(g, ns[..|ns| - 1], sameType);
      var (last, g2) :- Lower(g1, ns[|ns| - 1], sameType);
      Done(pre + [last], g2)
  }

  /** Lowering a whole program with a freshly constructed generator. */
  function Generate(program: Node, sameType: (Option<InnerType>, Option<InnerType>) -> bool): Out<CodeObject>
  {
    Lower(InitialGen, program, sameType)
  }

  /** Once a prefix of the siblings fails to lower, lowering the whole list fails the same way. */
  lemma {:induction false} LowerAllStopsAtFailure(g: Gen, ns: seq<Node>, j: nat,
                                                 sameType: (Option<InnerType>, Option<InnerType>) -> bool)
    requires j <= |ns| && LowerAll(g, ns[..j], sameType).res.Err?
    ensures LowerAll(g, ns, sameType) == LowerAll(g, ns[..j], sameType)
    decreases |ns|
  {
    if j < |ns| {
      var pre := ns[..|ns| - 1];
      assert pre[..j] == ns[..j];
      LowerAllStopsAtFailure(g, pre, j, sameType);
    } else {
      assert ns[..j] == ns;
    }
  }
}
