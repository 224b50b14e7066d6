/**
 * Statement lowering: statement lists, `read`, `write`, comparisons and the
 * two control-flow statements. A comparison ends in a branch to a
 * placeholder label that `if` and `while` re-target once their own labels
 * exist.
 */
module Control {
  import opened Wrappers
  import opened Scope
  import opened Instructions
  import opened CodeObjects
  import opened Alloc
  import opened Resolve
  import opened Ast

  /** A statement's code object: only code, no register, no type. */
  function Stmt(code: seq<Instr>): CodeObject
  {
    EmptyCo.(code := code)
  }

  /** The instructions of a list of code objects, one after another. */
  function ConcatCode(cos: seq<CodeObject>): seq<Instr>
  {
    if cos == [] then [] else ConcatCode(cos[..|cos| - 1]) + cos[|cos| - 1].code
  }

  /** A statement list: the statements' code in order. */
  function PostStatementList(stmts: seq<CodeObject>): (r: CodeObject)
    ensures r.code == ConcatCode(stmts) && !r.lval && r.ty.None? && r.temp.None?
  {
    Stmt(ConcatCode(stmts))
  }

  /**
   * `read`: the target must be a variable (a Java `assert`). A `geti` or
   * `getf` into a fresh temporary of the read's type is stored straight to
   * the frame slot of a local, or through a freshly materialised address
   * (offset 0) for a global. The variable's own code is not kept. Any other
   * type is a fatal error.
   */
  function PostRead(g: Gen, ty: InnerType, target: CodeObject): (r: Out<CodeObject>)
    ensures r.res.Ok? <==> target.ste.Some? && (ty == INT || ty == FLOAT)
    ensures r.res.Ok? ==> r.res.value.ty.None? && r.res.value.temp.None?
    ensures Extends(g, r.gen)
  {
    if target.ste.None? then Fail(AssertionFailed, g)
    else if ty == INT || ty == FLOAT then
      var sym := target.ste.value;
      var (t, g1) := NewTemp(g, ty).Extract();
      var get := if ty == INT then GetI(t) else GetF(t);
      if sym.isLocal then Done(Stmt([get, StoreFor(ty, t, "fp", sym.addr)]), g1)
      else
        var (il, g2) := AddrFromVariable(g1, target);
        Done(Stmt([get] + il + [StoreFor(ty, t, Operand(Dest(Last(il))), "0")]), g2)
    else Fail(Fatal("Shouldn't read into other variable"), g)
  }

  /**
   * `write`, given the static type of the written expression. A string must
   * be a variable (a Java `assert`): its address is materialised and passed
   * to `puts`, and the expression's own code is not kept. Any other value is
   * resolved to an rvalue and printed with `puti` (INT and PTR) or `putf`
   * (FLOAT); other types are a fatal error.
   */
  function PostWrite(g: Gen, writeTy: Option<InnerType>, expr: CodeObject): (r: Out<CodeObject>)
    ensures r.res.Ok? ==> writeTy.Some? && writeTy.value in {INT, PTR, FLOAT, STRING}
    ensures r.res.Ok? ==> |r.res.value.code| > 0 && r.res.value.ty.None?
    ensures r.res.Ok? ==>
      && (Last(r.res.value.code).PutI? <==> writeTy == Some(INT) || writeTy == Some(PTR))
      && (Last(r.res.value.code).PutF? <==> writeTy == Some(FLOAT))
      && (Last(r.res.value.code).PutS? <==> writeTy == Some(STRING))
    ensures Extends(g, r.gen)
  {
    if writeTy.None? then Fail(NullPointer, g)
    else if writeTy == Some(STRING) then
      if expr.ste.None? then Fail(AssertionFailed, g)
      else
        var (il, g1) := AddrFromVariable(g, expr);
        Done(Stmt(il + [PutS(Operand(Dest(Last(il))))]), g1)
    else
      var (e, g1) :- RvalifyIfLval(g, expr);
      match writeTy.value
      case INT => Done(Stmt(e.code + [PutI(Operand(e.temp))]), g1)
      case PTR => Done(Stmt(e.code + [PutI(Operand(e.temp))]), g1)
      case FLOAT => Done(Stmt(e.code + [PutF(Operand(e.temp))]), g1)
      case _ => Fail(Fatal("WriteNode has a weird type"), g1)
  }

  /**
   * The left operand of a comparison: the code that makes its value
   * available and the register holding it. A global variable first gets its
   * address materialised. A variable that is an lvalue is loaded (from its
   * frame slot if local, through the new address if global); a variable that
   * is not an lvalue is used as it is; an operand with no symbol is always
   * loaded from offset 0 of its own register.
   */
  function CondLeft(g: Gen, left: CodeObject): (r: Out<(seq<Instr>, string)>)
    ensures r.res.Ok? && (left.ste.None? || left.lval) ==> NumericTy(left.ty)
    ensures Extends(g, r.gen) && TempsOnly(g, r.gen)
  {
    var (lcode, g1) :=
      if left.ste.Some? && !left.ste.value.isLocal then
        var (il, g') := AddrFromVariable(g, left);
        (left.code + il, g')
      else (left.code, g);
    if left.ste.Some? && !left.lval then Done((lcode, Operand(left.temp)), g1)
    else if !NumericTy(left.ty) then Fail(WrongType(left.ty, "Wrong type"), g1)
    else
      var t := left.ty.value;
      var (nt, g2) := NewTemp(g1, t).Extract();
      var (base, offset) :=
        match left.ste
        case Some(sym) => if sym.isLocal then ("fp", sym.addr) else (Operand(Dest(lcode[|lcode| - 1])), "0")
        case None => (Operand(left.temp), "0");
      Done((lcode + [LoadFor(t, nt, base, offset)], nt), g2)
  }

  /**
   * The right operand of a comparison. A variable gets its address
   * materialised; the register is the destination of the last instruction
   * of the operand's code (an empty code is an error), and an lvalue is then
   * loaded from offset 0 of it.
   */
  function CondRight(g: Gen, right: CodeObject): (r: Out<(seq<Instr>, string)>)
    ensures r.res.Ok? ==> |r.res.value.0| > 0
    ensures r.res.Ok? && right.lval ==> NumericTy(right.ty)
    ensures Extends(g, r.gen) && TempsOnly(g, r.gen)
  {
    var (rcode, g1) :=
      if right.ste.Some? then
        var (il, g') := AddrFromVariable(g, right);
        (right.code + il, g')
      else (right.code, g);
    if rcode == [] then Fail(NoSuchElement, g1)
    else
      var reg := Operand(Dest(Last(rcode)));
      if !right.lval then Done((rcode, reg), g1)
      else if !NumericTy(right.ty) then Fail(WrongType(right.ty, "Wrong type"), g1)
      else
        var t := right.ty.value;
        var (nt, g2) := NewTemp(g1, t).Extract();
        Done((rcode + [LoadFor(t, nt, reg, "0")], nt), g2)
  }

  /** The integer branch taken when the comparison `op` holds. */
  function IntBranch(op: CondOp, l: string, r: string, target: string): (b: Instr)
  {
    match op
    case EQ => Beq(l, r, target)
    case NE => Bne(l, r, target)
    case LT => Blt(l, r, target)
    case LE => Ble(l, r, target)
    case GT => Bgt(l, r, target)
    case GE => Bge(l, r, target)
  }

  /**
   * The float comparison for the branch condition `op`. EQ is a single
   * `feq.s` whose destination is the label, NE an integer `bne`. LT, LE and
   * GT write the float comparison into one fresh integer temporary and
   * branch on a second, different fresh temporary; GE compares into one
   * fresh temporary and branches on that same one.
   */
  function FloatCompare(g: Gen, op: CondOp, l: string, r: string, target: string): (res: (seq<Instr>, Gen))
    ensures 1 <= |res.0| <= 2 && g.intRegCount <= res.1.intRegCount <= g.intRegCount + 2
    ensures res.1 == g.(intRegCount := res.1.intRegCount)
  {
    match op
    case EQ => ([Feq(l, r, target)], g)
    case NE => ([Bne(l, r, target)], g)
    case GE =>
      var (a, g1) := NewTemp(g, INT).Extract();
      ([Flt(l, r, a), Beq(a, "x0", target)], g1)
    case _ =>
      var (a, g1) := NewTemp(g, INT).Extract();
      var (b, g2) := NewTemp(g1, INT).Extract();
      var test := if op == LT then Flt(l, r, a) else Fle(l, r, a);
      var branch := if op == LE then Beq(b, "x0", target) else Bne(b, "x0", target);
      ([test, branch], g2)
  }

  /**
   * A comparison, given the operator its branch tests (the negation of the
   * source comparison). The left and then the right operand are resolved; an
   * INT left operand gets an integer branch and a FLOAT one a float
   * comparison, both to a fresh placeholder label; the result is an lvalue
   * of the left operand's type whose last instruction carries the label.
   */
  function PostCond(g: Gen, op: CondOp, left: CodeObject, right: CodeObject): (r: Out<CodeObject>)
    ensures r.res.Ok? ==> NumericTy(left.ty) && r.res.value.ty == left.ty && r.res.value.lval
    ensures r.res.Ok? ==> r.res.value.code != [] && r.gen.unknownLabel == g.unknownLabel + 1
    ensures r.res.Ok? && left.ty == Some(INT) ==> IsBranch(r.res.value.code[|r.res.value.code| - 1])
    ensures Extends(g, r.gen)
  {
    var ((lcode, lreg), g1) :- CondLeft(g, left);
    var ((rcode, rreg), g2) :- CondRight(g1, right);
    var code := lcode + rcode;
    if !NumericTy(left.ty) then Fail(WrongType(left.ty, "Shouldn't read into other variable"), g2)
    else
      var (target, g3) := NewUnknownLabel(g2);
      var (tail, g4) :=
        if left.ty == Some(INT) then ([IntBranch(op, lreg, rreg, target)], g3)
        else FloatCompare(g3, op, lreg, rreg, target);
      Done(CodeObject(code + tail, None, true, left.ty, None, None), g4)
  }

  /** The code of a condition with its final instruction re-targeted to `target`. */
  function Patched(cond: seq<Instr>, target: string): (r: seq<Instr>)
    requires cond != []
    ensures |r| == |cond| && r[..|r| - 1] == cond[..|cond| - 1]
    ensures r[|r| - 1] == Relabel(cond[|cond| - 1], target)
  {
    cond[..|cond| - 1] + [Relabel(cond[|cond| - 1], target)]
  }

  /**
   * `if`: an else label and then an out label are drawn. The condition's
   * branch is re-targeted to the else label when there is else code, to the
   * out label otherwise; the then code is followed by a jump to the out label
   * and the else label only when there is else code, and the out label
   * closes the statement. An empty condition is an error.
   */
  function PostIf(g: Gen, cond: CodeObject, thenList: CodeObject, elseList: CodeObject): (r: Out<CodeObject>)
    ensures r.res.Ok? <==> cond.code != []
    ensures r.gen == g.(elseLabel := g.elseLabel + 1, outLabel := g.outLabel + 1)
  {
    var (elseL, g1) := NewElseLabel(g);
    var (outL, g2) := NewOutLabel(g1);
    if cond.code == [] then Fail(IndexOutOfBounds, g2)
    else
      var hasElse := elseList.code != [];
      var branch := Patched(cond.code, if hasElse then elseL else outL);
      var thenPart := thenList.code + (if hasElse then [J(outL), Label(elseL)] else []);
      Done(Stmt(branch + thenPart + elseList.code + [Label(outL)]), g2)
  }

  /**
   * `while`: a loop label and then an out label are drawn; the loop label
   * heads the condition, whose branch is re-targeted to the out label, the
   * body follows, then a jump back to the loop label and the out label. An
   * empty condition is an error.
   */
  function PostWhile(g: Gen, cond: CodeObject, body: CodeObject): (r: Out<CodeObject>)
    ensures r.res.Ok? <==> cond.code != []
    ensures r.gen == g.(loopLabel := g.loopLabel + 1, outLabel := g.outLabel + 1)
  {
    var (loopL, g1) := NewLoopLabel(g);
    var (outL, g2) := NewOutLabel(g1);
    if cond.code == [] then Fail(IndexOutOfBounds, g2)
    else Done(Stmt([Label(loopL)] + Patched(cond.code, outL) + body.code + [J(loopL), Label(outL)]), g2)
  }
}
