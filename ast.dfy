/**
 * The typed syntax tree the generator walks, as a closed datatype: one
 * constructor per node class with a `postprocess` in the generator. Each
 * expression node carries the static type the front end gave it; the parser
 * and the type checker that build the tree are not part of this model.
 */
module Ast {
  import opened Wrappers
  import opened Scope
  import opened CastNodes

  datatype BinOp = ADD | SUB | MUL | DIV
  datatype UnOp = NEG
  datatype CondOp = EQ | NE | LT | LE | GT | GE

  /** The operator under which a comparison is false (`getReversedOp()`). */
  function Reversed(op: CondOp): CondOp
  {
    match op
    case EQ => NE
    case NE => EQ
    case LT => GE
    case GE => LT
    case LE => GT
    case GT => LE
  }

  datatype Node =
    | VarRef(sym: Sym, ty: InnerType)
    | IntLit(val: string)
    | FloatLit(val: string)
    | Cast(cast: CastNode<Node>)
    | BinaryOp(ty: InnerType, op: BinOp, left: Node, right: Node)
    | UnaryOp(ty: InnerType, uop: UnOp, expr: Node)
    | Assign(left: Node, right: Node)
    | StatementList(stmts: seq<Node>)
    | Read(ty: InnerType, target: Node)
    | Write(expr: Node)
    | Cond(cop: CondOp, left: Node, right: Node)
    | If(cond: Node, thenList: Node, elseList: Node)
    | While(cond: Node, body: Node)
    | Return(funcType: InnerType, retExpr: Option<Node>)
    | Call(ty: InnerType, name: string, args: seq<Node>)
    | PtrDeref(ty: InnerType, expr: Node)
    | AddrOf(ty: InnerType, expr: Node)
    | MallocCall(expr: Node)
    | FreeCall(expr: Node)
    | Function(name: string, numLocals: nat, body: Node)
    | FunctionList(funcs: seq<Node>)

  /**
   * `getType()` of a node as the front end set it: a malloc node has type
   * INFER and a free node VOID; statements carry no value type.
   */
  function NodeType(n: Node): Option<InnerType>
  {
    match n
    case VarRef(_, t) => Some(t)
    case IntLit(_) => Some(INT)
    case FloatLit(_) => Some(FLOAT)
    case Cast(c) => Some(GetType(c))
    case BinaryOp(t, _, _, _) => Some(t)
    case UnaryOp(t, _, _) => Some(t)
    case Call(t, _, _) => Some(t)
    case PtrDeref(t, _) => Some(t)
    case AddrOf(t, _) => Some(t)
    case MallocCall(_) => Some(INFER)
    case FreeCall(_) => Some(VOID)
    case _ => None
  }

  /** A node with no function definition inside it: an expression or a statement. */
  predicate FunctionFree(n: Node)
  {
    match n
    case VarRef(_, _) => true
    case IntLit(_) => true
    case FloatLit(_) => true
    case Cast(c) => FunctionFree(c.expr)
    case BinaryOp(_, _, left, right) => FunctionFree(left) && FunctionFree(right)
    case UnaryOp(_, _, expr) => FunctionFree(expr)
    case Assign(left, right) => FunctionFree(left) && FunctionFree(right)
    case StatementList(stmts) => forall i :: 0 <= i < |stmts| ==> FunctionFree(stmts[i])
    case Read(_, target) => FunctionFree(target)
    case Write(expr) => FunctionFree(expr)
    case Cond(_, left, right) => FunctionFree(left) && FunctionFree(right)
    case If(cond, thenList, elseList) => FunctionFree(cond) && FunctionFree(thenList) && FunctionFree(elseList)
    case While(cond, body) => FunctionFree(cond) && FunctionFree(body)
    case Return(_, retExpr) => retExpr.None? || FunctionFree(retExpr.value)
    case Call(_, _, args) => forall i :: 0 <= i < |args| ==> FunctionFree(args[i])
    case PtrDeref(_, expr) => FunctionFree(expr)
    case AddrOf(_, expr) => FunctionFree(expr)
    case MallocCall(expr) => FunctionFree(expr)
    case FreeCall(expr) => FunctionFree(expr)
    case Function(_, _, _) => false
    case FunctionList(_) => false
  }
}
