/**
 * Expression lowering: the `postprocess` methods of `CodeGenerator` for
 * variables, literals, casts, binary and unary operators, assignment,
 * pointer dereference, address-of, malloc and free. Each takes the state and
 * the children's code objects and gives the node's code object and the next
 * state.
 */
module Expressions {
  import opened Wrappers
  import opened Scope
  import opened Instructions
  import opened CodeObjects
  import opened Alloc
  import opened Resolve
  import opened Ast

  /** A variable use: no code, an lvalue carrying the symbol and the declared type. */
  function PostVar(sym: Sym, ty: InnerType): (r: CodeObject)
    ensures r.lval && r.ty == Some(ty) && r.ste == Some(sym) && r.code == [] && r.temp.None?
  {
    CodeObject([], None, true, Some(ty), None, Some(sym))
  }

  /** An integer literal: one `li` into a fresh integer temporary. */
  function PostIntLit(g: Gen, val: string): (r: (CodeObject, Gen))
    ensures !r.0.lval && r.0.ty == Some(INT) && r.0.temp.Some?
    ensures |r.0.code| == 1 && Dest(r.0.code[0]) == r.0.temp
    ensures Extends(g, r.1) && TempsOnly(g, r.1) && r.1.intRegCount == g.intRegCount + 1
  {
    var (t, g1) := NewTemp(g, INT).Extract();
    (CodeObject([Li(t, val)], Some(t), false, Some(INT), None, None), g1)
  }

  /** A float literal: one `fimm.s` into a fresh float temporary. */
  function PostFloatLit(g: Gen, val: string): (r: (CodeObject, Gen))
    ensures !r.0.lval && r.0.ty == Some(FLOAT) && r.0.temp.Some?
    ensures |r.0.code| == 1 && Dest(r.0.code[0]) == r.0.temp
    ensures Extends(g, r.1) && TempsOnly(g, r.1) && r.1.floatRegCount == g.floatRegCount + 1
  {
    var (t, g1) := NewTemp(g, FLOAT).Extract();
    (CodeObject([FImm(t, val)], Some(t), false, Some(FLOAT), None, None), g1)
  }

  /**
   * A cast to `castTy`: the operand is resolved to an rvalue; when its type
   * differs from the target, an INT target gets an `fmovi` into a fresh
   * integer temporary and a FLOAT target an `imovf` into a fresh float
   * temporary, any other target is a fatal error; when the types agree the
   * operand's register is reused.
   */
  function PostCast(g: Gen, castTy: InnerType, expr: CodeObject): (r: Out<CodeObject>)
    ensures r.res.Ok? ==> !r.res.value.lval && r.res.value.ty == Some(castTy) && r.res.value.ste.None?
    ensures Extends(g, r.gen)
  {
    var (e, g1) :- RvalifyIfLval(g, expr);
    if e.ty.None? then Fail(NullPointer, g1)
    else if castTy != e.ty.value then
      if castTy == INT then
        var (nt, g2) := NewTemp(g1, INT).Extract();
        Done(CodeObject(e.code + [FmovI(Operand(e.temp), nt)], Some(nt), false, Some(INT), None, None), g2)
      else if castTy == FLOAT then
        var (nt, g2) := NewTemp(g1, FLOAT).Extract();
        Done(CodeObject(e.code + [ImovF(Operand(e.temp), nt)], Some(nt), false, Some(FLOAT), None, None), g2)
      else Fail(Fatal("Wrong type"), g1)
    else Done(CodeObject(e.code, e.temp, false, Some(castTy), None, None), g1)
  }

  /** The integer instruction for a binary operator. */
  function IntOp(op: BinOp, a: string, b: string, d: string): Instr
  {
    match op
    case ADD => Add(a, b, d)
    case SUB => Sub(a, b, d)
    case MUL => Mul(a, b, d)
    case DIV => Div(a, b, d)
  }

  /** The float instruction for a binary operator. */
  function FloatOp(op: BinOp, a: string, b: string, d: string): Instr
  {
    match op
    case ADD => FAdd(a, b, d)
    case SUB => FSub(a, b, d)
    case MUL => FMul(a, b, d)
    case DIV => FDiv(a, b, d)
  }

  /** The type of a binary operation's result: FLOAT when the operand types differ, else the left type. */
  function BinaryType(left: CodeObject, right: CodeObject): Option<InnerType>
  {
    if left.ty != right.ty then Some(FLOAT) else left.ty
  }

  /**
   * A binary operation. Both operands are resolved (left first). An INT left
   * operand with an INT right one, and any PTR left operand, use the integer
   * instruction; two FLOATs use the float instruction; an INT and a non-INT
   * (or a FLOAT and a non-FLOAT) convert the non-float side with `imovf`
   * into a fresh float temporary right before the float instruction. The
   * result temporary is drawn before the conversion temporary.
   */
  function PostBinaryOp(g: Gen, op: BinOp, left: CodeObject, right: CodeObject): (r: Out<CodeObject>)
    ensures r.res.Ok? ==> !r.res.value.lval && r.res.value.ty == BinaryType(left, right)
    ensures r.res.Ok? ==> left.ty.Some? && IsScalar(left.ty.value) && right.ty.Some?
    ensures Extends(g, r.gen)
  {
    var ((lcode, lreg), g1) :- LoadOperand(g, left);
    var ((rcode, rreg), g2) :- LoadOperand(g1, right);
    var code := lcode + rcode;
    if left.ty.None? then Fail(NullPointer, g2)
    else
      var lt := left.ty.value;
      if lt == INT || lt == FLOAT then
        if right.ty.None? then Fail(NullPointer, g2)
        else if right.ty == left.ty then
          var (nt, g3) := NewTemp(g2, lt).Extract();
          var inst := if lt == INT then IntOp(op, lreg, rreg, nt) else FloatOp(op, lreg, rreg, nt);
          Done(Arith(code + [inst], nt, left, right), g3)
        else
          var (nt, g3) := NewTemp(g2, FLOAT).Extract();
          var (src, g4) := NewTemp(g3, FLOAT).Extract();
          var conv := if lt == INT then [ImovF(lreg, src), FloatOp(op, src, rreg, nt)]
                      else [ImovF(rreg, src), FloatOp(op, lreg, src, nt)];
          Done(Arith(code + conv, nt, left, right), g4)
      else if lt == PTR then
        var (nt, g3) := NewTemp(g2, INT).Extract();
        if right.ty.None? then Fail(NullPointer, g3)
        else Done(Arith(code + [IntOp(op, lreg, rreg, nt)], nt, left, right), g3)
      else Fail(Fatal("Shouldn't read into other variable"), g2)
  }

  /** The rvalue a binary operation produces. */
  function Arith(code: seq<Instr>, nt: string, left: CodeObject, right: CodeObject): CodeObject
  {
    CodeObject(code, Some(nt), false, BinaryType(left, right), None, None)
  }

  /**
   * Unary negation. A variable operand first gets its address materialised
   * (the address register is not recorded as the operand's register); an
   * lvalue of type INT or FLOAT is then loaded from offset 0 of the operand's
   * register; `neg` or `fneg.s` writes a fresh temporary of the operand's kind.
   */
  function PostUnaryOp(g: Gen, op: UnOp, expr: CodeObject): (r: Out<CodeObject>)
    ensures r.res.Ok? <==> NumericTy(expr.ty)
    ensures r.res.Ok? ==> !r.res.value.lval && r.res.value.ty == expr.ty
    ensures Extends(g, r.gen)
  {
    var (il, g1) := if expr.ste.Some? then AddrFromVariable(g, expr) else ([], g);
    var code := expr.code + il;
    if !NumericTy(expr.ty) then
      Fail(WrongType(expr.ty, if expr.lval then "Wrong type" else "Shouldn't read into other variable"), g1)
    else
      var t := expr.ty.value;
      var (code2, reg, g2) :=
        if expr.lval then
          var (nt, g') := NewTemp(g1, t).Extract();
          (code + [LoadFor(t, nt, Operand(expr.temp), "0")], nt, g')
        else (code, Operand(expr.temp), g1);
      var (d, g3) := NewTemp(g2, t).Extract();
      match op
      case NEG =>
        var inst := if t == INT then Neg(reg, d) else FNeg(reg, d);
        Done(CodeObject(code2 + [inst], Some(d), false, expr.ty, None, None), g3)
  }

  /**
   * Assignment. The left side must be an lvalue (a Java `assert`). A global
   * target gets its address materialised into a register, which becomes the
   * result register; the right side is resolved to an rvalue. With a symbol,
   * the store always uses base `fp` and the symbol's address as offset: an
   * INT target stores with `sw`, converting a non-INT value with `fmovi`
   * first; a FLOAT target stores with `fsw`, converting with `imovf` first; a
   * PTR target uses `fsw` only for a FLOAT value. Without a symbol the value
   * is stored at offset 0 of the left register, with `fsw` only for FLOAT.
   * The result is an lvalue.
   */
  function PostAssign(g: Gen, left: CodeObject, right: CodeObject): (r: Out<CodeObject>)
    ensures r.res.Ok? ==> left.lval && r.res.value.lval && r.res.value.ty.None?
    ensures !left.lval ==> r == Fail(AssertionFailed, g)
    ensures Extends(g, r.gen)
  {
    if !left.lval then Fail(AssertionFailed, g)
    else
      var (lcode, ltemp, g1) :=
        if left.ste.Some? && !left.ste.value.isLocal then
          var (il, g') := AddrFromVariable(g, left);
          (left.code + il, Dest(Last(il)), g')
        else (left.code, left.temp, g);
      var (rv, g2) :- RvalifyIfLval(g1, right);
      var code := lcode + rv.code;
      var value := Operand(rv.temp);
      if rv.ty.None? then
        if left.ste.Some? && !ScalarTy(left.ty) then Fail(WrongType(left.ty, "Wrong Type"), g2)
        else Fail(NullPointer, g2)
      else
        var rt := rv.ty.value;
        match left.ste
        case Some(sym) =>
          if left.ty == Some(INT) || left.ty == Some(FLOAT) then
            var lt := left.ty.value;
            if rt == lt then Done(Stored(code + [StoreFor(lt, value, "fp", sym.addr)], ltemp), g2)
            else
              var (nt, g3) := NewTemp(g2, lt).Extract();
              var conv := if lt == INT then FmovI(value, nt) else ImovF(value, nt);
              Done(Stored(code + [conv, StoreFor(lt, nt, "fp", sym.addr)], Some(nt)), g3)
          else if left.ty == Some(PTR) then
            Done(Stored(code + [StoreFor(rt, value, "fp", sym.addr)], ltemp), g2)
          else Fail(WrongType(left.ty, "Wrong Type"), g2)
        case None =>
          Done(Stored(code + [StoreFor(rt, value, Operand(ltemp), "0")], ltemp), g2)
  }

  /** The lvalue an assignment produces. */
  function Stored(code: seq<Instr>, temp: Option<string>): CodeObject
  {
    CodeObject(code, temp, true, None, None, None)
  }

  /**
   * Pointer dereference: the operand is resolved to an rvalue (the pointer's
   * value) and republished, without any new instruction, as an lvalue of the
   * pointee type.
   */
  function PostPtrDeref(g: Gen, ty: InnerType, expr: CodeObject): (r: Out<CodeObject>)
    ensures r.res.Ok? ==> r.res.value.lval && r.res.value.ty == Some(ty) && r.res.value.ste.None?
    ensures Extends(g, r.gen)
  {
    var (e, g1) :- RvalifyIfLval(g, expr);
    Done(CodeObject(e.code, e.temp, true, Some(ty), None, None), g1)
  }

  /**
   * Address-of: for a variable, its address is materialised into a fresh
   * integer temporary that becomes the result register; otherwise the
   * operand's code is kept and no register is recorded. The result is an
   * rvalue of the node's (pointer) type.
   */
  function PostAddrOf(g: Gen, ty: InnerType, expr: CodeObject): (r: (CodeObject, Gen))
    ensures !r.0.lval && r.0.ty == Some(ty)
    ensures Extends(g, r.1)
  {
    if expr.ste.Some? then
      var (il, g1) := AddrFromVariable(g, expr);
      (CodeObject(il + expr.code, Dest(Last(il)), false, Some(ty), None, None), g1)
    else (CodeObject(expr.code, None, false, Some(ty), None, None), g)
  }

  /** Malloc: the size is resolved to an rvalue and one `malloc` writes a fresh integer temporary. */
  function PostMalloc(g: Gen, ty: InnerType, expr: CodeObject): (r: Out<CodeObject>)
    ensures r.res.Ok? ==> !r.res.value.lval && r.res.value.ty == Some(ty) && r.res.value.temp.Some?
    ensures Extends(g, r.gen)
  {
    var (e, g1) :- RvalifyIfLval(g, expr);
    var (nt, g2) := NewTemp(g1, INT).Extract();
    Done(CodeObject(e.code + [Malloc(Operand(e.temp), nt)], Some(nt), false, Some(ty), None, None), g2)
  }

  /** Free: the pointer is resolved to an rvalue and one `free` releases it. */
  function PostFree(g: Gen, expr: CodeObject): (r: Out<CodeObject>)
    ensures r.res.Ok? ==> r.res.value.ty.None? && |r.res.value.code| > 0 && Last(r.res.value.code).Free?
    ensures Extends(g, r.gen)
  {
    var (e, g1) :- RvalifyIfLval(g, expr);
    Done(CodeObject(e.code + [Free(Operand(e.temp))], None, false, None, None, None), g1)
  }
}
