/**
 * What the expression lowering emits: the shape of `rvalify` for each kind
 * of operand, the conversions a cast and a mixed binary operation insert,
 * where an assignment stores, and the register a negation reads. Every
 * register the generator writes is a fresh temporary, one not handed out
 * before in the current function.
 */
module ExpressionProps {
  import opened Wrappers
  import opened Scope
  import opened Instructions
  import opened CodeObjects
  import opened Alloc
  import opened Resolve
  import opened CastNodes
  import opened Ast
  import opened Expressions
  import opened Freshness

  /** `rvalify` of a local variable: a load from its frame slot, placed before the operand's code, into a fresh register. */
  lemma RvalifyLocal(g: Gen, lco: CodeObject)
    requires lco.lval && lco.ste.Some? && lco.ste.value.isLocal && ScalarTy(lco.ty)
    ensures var r := Rvalify(g, lco);
      && r.res.Ok? && r.res.value.temp.Some?
      && var nt := r.res.value.temp.value;
      && r.res.value.code == [LoadFor(lco.ty.value, nt, "fp", lco.ste.value.addr)] + lco.code
      && nt !in UsedTemps(g) && UsedTemps(r.gen) == UsedTemps(g) + {nt}
  {
    NewTempFresh(g, TempKind(lco.ty.value));
  }

  /**
   * `rvalify` of a global INT or FLOAT variable: its address is loaded into
   * one fresh integer register, the operand's code follows, and the value is
   * loaded from offset 0 of that register into a second, different fresh
   * register.
   */
  lemma RvalifyGlobal(g: Gen, lco: CodeObject)
    requires lco.lval && lco.ste.Some? && !lco.ste.value.isLocal && NumericTy(lco.ty)
    ensures var r := Rvalify(g, lco);
      && r.res.Ok? && r.res.value.temp.Some?
      && var a := IntTemp(g.intRegCount + 1);
      && var nt := r.res.value.temp.value;
      && r.res.value.code == [La(a, lco.ste.value.addr)] + lco.code + [LoadFor(lco.ty.value, nt, a, "0")]
      && a != nt && a !in UsedTemps(g) && nt !in UsedTemps(g)
  {
    var g1 := AddrFromVariable(g, lco).1;
    NewTempFresh(g, INT);
    NewTempFresh(g1, TempKind(lco.ty.value));
    var r := Rvalify(g, lco);
    assert r.res.value.code == [La(IntTemp(g.intRegCount + 1), lco.ste.value.addr)] + lco.code
                               + [LoadFor(lco.ty.value, r.res.value.temp.value, IntTemp(g.intRegCount + 1), "0")] + [];
  }

  /**
   * `rvalify` of a global pointer variable repeats the operand's code after
   * the load: the code is the address, the operand's code, the load and the
   * operand's code again.
   */
  lemma RvalifyGlobalPointerRepeats(g: Gen, lco: CodeObject)
    requires lco.lval && lco.ste.Some? && !lco.ste.value.isLocal && lco.ty == Some(PTR)
    ensures var r := Rvalify(g, lco);
      && r.res.Ok?
      && var code := r.res.value.code;
      && |code| == 2 * |lco.code| + 2
      && code[1..|lco.code| + 1] == lco.code && code[|lco.code| + 2..] == lco.code
      && code[|lco.code| + 1] == Lw(Operand(r.res.value.temp), IntTemp(g.intRegCount + 1), "0")
  {
    var r := Rvalify(g, lco);
    var il := [La(IntTemp(g.intRegCount + 1), lco.ste.value.addr)];
    var load := Lw(Operand(r.res.value.temp), IntTemp(g.intRegCount + 1), "0");
    assert r.res.value.code == il + lco.code + [load] + lco.code;
  }

  /** `rvalify` of an lvalue with no symbol (a dereference): a load from offset 0 of its register, after its code. */
  lemma RvalifyThroughRegister(g: Gen, lco: CodeObject)
    requires lco.lval && lco.ste.None? && ScalarTy(lco.ty)
    ensures var r := Rvalify(g, lco);
      && r.res.Ok? && r.res.value.temp.Some?
      && var nt := r.res.value.temp.value;
      && r.res.value.code == lco.code + [LoadFor(lco.ty.value, nt, Operand(lco.temp), "0")]
      && nt !in UsedTemps(g)
  {
    NewTempFresh(g, TempKind(lco.ty.value));
  }

  /**
   * A cast of an INT or FLOAT operand succeeds exactly when the target is
   * INT or FLOAT, the only types a cast node can name.
   */
  lemma CastOkIff(g: Gen, castTy: InnerType, expr: CodeObject)
    requires NumericTy(expr.ty)
    ensures PostCast(g, castTy, expr).res.Ok? <==> castTy == INT || castTy == FLOAT
  {
  }

  /** Every cast node built from a type name lowers without error over an INT or FLOAT operand. */
  lemma CastNodeLowers<E>(g: Gen, e: E, typeName: string, expr: CodeObject)
    requires NewCastNode(e, typeName).Ok? && NumericTy(expr.ty)
    ensures PostCast(g, GetType(NewCastNode(e, typeName).value), expr).res.Ok?
  {
    CastOkIff(g, GetType(NewCastNode(e, typeName).value), expr);
  }

  /**
   * A cast between INT and FLOAT of any operand, after the operand is
   * resolved to an rvalue (a variable is loaded first), appends exactly one
   * conversion (`fmovi` to INT, `imovf` to FLOAT) from the resolved register
   * into a register of the target kind that was in use neither before the
   * cast nor after the operand was resolved; a cast to the operand's own
   * type emits nothing more and keeps the resolved register.
   */
  lemma CastConverts(g: Gen, castTy: InnerType, expr: CodeObject)
    requires NumericTy(expr.ty) && (castTy == INT || castTy == FLOAT)
    ensures var e := RvalifyIfLval(g, expr);
      && e.res.Ok? && e.res.value.ty == expr.ty
      && var ev := e.res.value;
      && var r := PostCast(g, castTy, expr);
      && r.res.Ok?
      && (castTy == expr.ty.value ==> r.res.value.code == ev.code && r.res.value.temp == ev.temp && r.gen == e.gen)
      && (castTy != expr.ty.value ==>
            && r.res.value.temp.Some?
            && var nt := r.res.value.temp.value;
            && r.res.value.code == ev.code + [if castTy == INT then FmovI(Operand(ev.temp), nt)
                                              else ImovF(Operand(ev.temp), nt)]
            && nt == NewTemp(e.gen, castTy).Extract().0
            && nt !in UsedTemps(e.gen) && nt !in UsedTemps(g))
  {
    var e := RvalifyIfLval(g, expr);
    NewTempFresh(e.gen, castTy);
    LaterTempsFresh(g, e.gen, castTy);
  }

  /**
   * Two rvalue operands of the same INT or FLOAT type: the operands' code,
   * then one instruction of that kind for the operator into a fresh
   * register; the result has the operands' type.
   */
  lemma BinarySameType(g: Gen, op: BinOp, left: CodeObject, right: CodeObject)
    requires !left.lval && !right.lval && NumericTy(left.ty) && right.ty == left.ty
    ensures var r := PostBinaryOp(g, op, left, right);
      && r.res.Ok? && r.res.value.ty == left.ty && r.res.value.temp.Some?
      && var nt := r.res.value.temp.value;
      && var l, rr := Operand(left.temp), Operand(right.temp);
      && r.res.value.code == left.code + right.code
           + [if left.ty == Some(INT) then IntOp(op, l, rr, nt) else FloatOp(op, l, rr, nt)]
      && nt !in UsedTemps(g)
  {
    NewTempFresh(g, left.ty.value);
  }

  /**
   * An INT and a FLOAT operand, in either order and whether or not they are
   * variables: after both are resolved (left first), the INT operand's
   * register is converted with `imovf` into a fresh float register, which
   * the float instruction reads in the INT operand's position; the result is
   * FLOAT, in another fresh float register drawn before the conversion's.
   */
  lemma BinaryMixed(g: Gen, op: BinOp, left: CodeObject, right: CodeObject)
    requires NumericTy(left.ty) && NumericTy(right.ty) && left.ty != right.ty
    ensures var lo := LoadOperand(g, left);
      && lo.res.Ok?
      && var ro := LoadOperand(lo.gen, right);
      && ro.res.Ok?
      && var (lcode, l) := lo.res.value;
      && var (rcode, rr) := ro.res.value;
      && var r := PostBinaryOp(g, op, left, right);
      && r.res.Ok? && r.res.value.ty == Some(FLOAT)
      && var nt := FloatTemp(ro.gen.floatRegCount + 1);
      && var src := FloatTemp(ro.gen.floatRegCount + 2);
      && r.res.value.temp == Some(nt) && nt != src
      && r.res.value.code == lcode + rcode
           + (if left.ty == Some(INT) then [ImovF(l, src), FloatOp(op, src, rr, nt)]
              else [ImovF(rr, src), FloatOp(op, l, src, nt)])
  {
    var lo := LoadOperand(g, left);
    ResolveOkIff(g, left);
    ResolveOkIff(lo.gen, right);
    var ro := LoadOperand(lo.gen, right);
    BinaryMixedLoaded(g, op, left, right, lo.res.value.0, lo.res.value.1, lo.gen, ro.res.value.0, ro.res.value.1, ro.gen);
  }

  /** `BinaryMixed` with the resolved operands named. */
  lemma BinaryMixedLoaded(g: Gen, op: BinOp, left: CodeObject, right: CodeObject,
                          lcode: seq<Instr>, l: string, g1: Gen, rcode: seq<Instr>, rr: string, g2: Gen)
    requires NumericTy(left.ty) && NumericTy(right.ty) && left.ty != right.ty
    requires LoadOperand(g, left) == Done((lcode, l), g1) && LoadOperand(g1, right) == Done((rcode, rr), g2)
    ensures var r := PostBinaryOp(g, op, left, right);
      && r.res.Ok? && r.res.value.ty == Some(FLOAT)
      && var nt := FloatTemp(g2.floatRegCount + 1);
      && var src := FloatTemp(g2.floatRegCount + 2);
      && r.res.value.temp == Some(nt) && nt != src
      && r.res.value.code == lcode + rcode
           + (if left.ty == Some(INT) then [ImovF(l, src), FloatOp(op, src, rr, nt)]
              else [ImovF(rr, src), FloatOp(op, l, src, nt)])
  {
    TempNamesDistinct(g2.floatRegCount + 1, g2.floatRegCount + 2);
  }

  /**
   * A PTR left operand always takes the integer instruction, whatever the
   * right operand's type and whether or not either side is a variable: the
   * resolved operands' code, then one integer instruction into the next
   * integer register. With a right operand of another type the result is
   * typed FLOAT, as for any two operands of different types.
   */
  lemma PointerArithmetic(g: Gen, op: BinOp, left: CodeObject, right: CodeObject)
    requires left.ty == Some(PTR) && right.ty.Some? && (right.lval ==> IsScalar(right.ty.value))
    ensures var lo := LoadOperand(g, left);
      && lo.res.Ok?
      && var ro := LoadOperand(lo.gen, right);
      && ro.res.Ok?
      && var nt := IntTemp(ro.gen.intRegCount + 1);
      && var r := PostBinaryOp(g, op, left, right);
      && r.res.Ok? && r.res.value.temp == Some(nt)
      && r.res.value.code == lo.res.value.0 + ro.res.value.0 + [IntOp(op, lo.res.value.1, ro.res.value.1, nt)]
      && (r.res.value.ty == Some(PTR) <==> right.ty == Some(PTR))
      && (right.ty != Some(PTR) ==> r.res.value.ty == Some(FLOAT))
  {
    var lo := LoadOperand(g, left);
    ResolveOkIff(g, left);
    ResolveOkIff(lo.gen, right);
    var ro := LoadOperand(lo.gen, right);
    PointerArithmeticLoaded(g, op, left, right, lo.res.value.0, lo.res.value.1, lo.gen, ro.res.value.0, ro.res.value.1, ro.gen);
  }

  /** `PointerArithmetic` with the resolved operands named. */
  lemma PointerArithmeticLoaded(g: Gen, op: BinOp, left: CodeObject, right: CodeObject,
                                lcode: seq<Instr>, l: string, g1: Gen, rcode: seq<Instr>, rr: string, g2: Gen)
    requires left.ty == Some(PTR) && right.ty.Some?
    requires LoadOperand(g, left) == Done((lcode, l), g1) && LoadOperand(g1, right) == Done((rcode, rr), g2)
    ensures var r := PostBinaryOp(g, op, left, right);
      && r.res.Ok? && r.res.value.temp == Some(IntTemp(g2.intRegCount + 1))
      && r.res.value.code == lcode + rcode + [IntOp(op, l, rr, IntTemp(g2.intRegCount + 1))]
      && (r.res.value.ty == Some(PTR) <==> right.ty == Some(PTR))
      && (right.ty != Some(PTR) ==> r.res.value.ty == Some(FLOAT))
  {
  }

  /**
   * Negating a variable: its address is materialised into a fresh register
   * that is not recorded as the operand's register, so the value is loaded
   * from offset 0 of the operand's own register, which a variable does not
   * have: the load reads from the register named "null".
   */
  lemma NegateVariableReadsNull(g: Gen, op: UnOp, sym: Sym, ty: InnerType)
    requires ty == INT || ty == FLOAT
    ensures var r := PostUnaryOp(g, op, PostVar(sym, ty));
      && r.res.Ok?
      && var c := r.res.value.code;
      && var v := if ty == FLOAT then FloatTemp(g.floatRegCount + 1) else IntTemp(g.intRegCount + 2);
      && |c| == 3 && Dest(c[0]) == Some(IntTemp(g.intRegCount + 1))
      && c[1] == LoadFor(ty, v, "null", "0")
      && c[2] == (if ty == INT then Neg(v, Operand(r.res.value.temp)) else FNeg(v, Operand(r.res.value.temp)))
  {
    NegateVariableCode(g, op, sym, ty);
    var il := AddrFromVariable(g, PostVar(sym, ty)).0;
    if ty == INT {
      NegateVariableTail(g, op, sym, INT, il);
    } else {
      NegateVariableTail(g, op, sym, FLOAT, il);
    }
  }

  /** The three instructions of `NegateVariableReadsNull`, for one operand type. */
  lemma NegateVariableTail(g: Gen, op: UnOp, sym: Sym, ty: InnerType, il: seq<Instr>)
    requires ty == INT || ty == FLOAT
    requires il == AddrFromVariable(g, PostVar(sym, ty)).0
    ensures var r := PostUnaryOp(g, op, PostVar(sym, ty));
      && r.res.Ok?
      && var c := r.res.value.code;
      && var v := if ty == FLOAT then FloatTemp(g.floatRegCount + 1) else IntTemp(g.intRegCount + 2);
      && |c| == 3 && Dest(c[0]) == Some(IntTemp(g.intRegCount + 1))
      && c[1] == LoadFor(ty, v, "null", "0")
      && c[2] == (if ty == INT then Neg(v, Operand(r.res.value.temp)) else FNeg(v, Operand(r.res.value.temp)))
  {
    NegateVariableCode(g, op, sym, ty);
    assert Dest(il[0]) == Some(IntTemp(g.intRegCount + 1));
  }

  /** The code `NegateVariableReadsNull` describes, with the address instruction left abstract. */
  lemma NegateVariableCode(g: Gen, op: UnOp, sym: Sym, ty: InnerType)
    requires ty == INT || ty == FLOAT
    ensures var e := PostVar(sym, ty);
      && var (il, g1) := AddrFromVariable(g, e);
      && var (v, g2) := NewTemp(g1, ty).Extract();
      && var d := NewTemp(g2, ty).Extract().0;
      && PostUnaryOp(g, op, e)
         == Done(CodeObject(il + [LoadFor(ty, v, "null", "0")] + [if ty == INT then Neg(v, d) else FNeg(v, d)],
                            Some(d), false, Some(ty), None, None), NewTemp(g2, ty).gen)
  {
    var e := PostVar(sym, ty);
    var il := AddrFromVariable(g, e).0;
    assert e.code + il == il && Operand(e.temp) == "null";
  }

  /** Negating an rvalue: its code, then one `neg` (`fneg.s` for FLOAT) of its register into a fresh register. */
  lemma NegateRvalue(g: Gen, op: UnOp, expr: CodeObject)
    requires !expr.lval && expr.ste.None? && NumericTy(expr.ty)
    ensures var r := PostUnaryOp(g, op, expr);
      && r.res.Ok? && r.res.value.temp.Some?
      && var d := r.res.value.temp.value;
      && r.res.value.code == expr.code + [if expr.ty == Some(INT) then Neg(Operand(expr.temp), d)
                                          else FNeg(Operand(expr.temp), d)]
      && d !in UsedTemps(g)
  {
    NewTempFresh(g, expr.ty.value);
    assert expr.code + [] == expr.code;
  }

  /**
   * Assigning a value of the variable's own type to a global variable: the
   * variable's address is loaded with `la` into a fresh register that
   * becomes the result's register, the right side is resolved to an rvalue,
   * but the store itself goes to the variable's address as an offset from
   * `fp`, as for a local.
   */
  lemma AssignGlobalStoresFromFp(g: Gen, sym: Sym, ty: InnerType, right: CodeObject)
    requires !sym.isLocal && (ty == INT || ty == FLOAT) && right.ty == Some(ty)
    ensures var a := IntTemp(g.intRegCount + 1);
      && var rv := RvalifyIfLval(g.(intRegCount := g.intRegCount + 1), right);
      && rv.res.Ok?
      && var r := PostAssign(g, PostVar(sym, ty), right);
      && r.res.Ok? && r.res.value.temp == Some(a)
      && r.res.value.code == [La(a, sym.addr)] + rv.res.value.code
           + [StoreFor(ty, Operand(rv.res.value.temp), "fp", sym.addr)]
  {
    var g1 := g.(intRegCount := g.intRegCount + 1);
    assert AddrFromVariable(g, PostVar(sym, ty)) == ([La(IntTemp(g1.intRegCount), sym.addr)], g1);
    if right.lval {
      AssignGlobalVariableStoresFromFp(g, sym, ty, right);
    }
  }

  /** `AssignGlobalStoresFromFp` when the right side is itself a variable. */
  lemma AssignGlobalVariableStoresFromFp(g: Gen, sym: Sym, ty: InnerType, right: CodeObject)
    requires !sym.isLocal && (ty == INT || ty == FLOAT) && right.ty == Some(ty) && right.lval
    ensures var a := IntTemp(g.intRegCount + 1);
      && var rv := RvalifyIfLval(g.(intRegCount := g.intRegCount + 1), right);
      && rv.res.Ok?
      && var r := PostAssign(g, PostVar(sym, ty), right);
      && r.res.Ok? && r.res.value.temp == Some(a)
      && r.res.value.code == [La(a, sym.addr)] + rv.res.value.code
           + [StoreFor(ty, Operand(rv.res.value.temp), "fp", sym.addr)]
  {
    var g1 := g.(intRegCount := g.intRegCount + 1);
    assert AddrFromVariable(g, PostVar(sym, ty)) == ([La(IntTemp(g1.intRegCount), sym.addr)], g1);
  }

  /**
   * Assigning a value of the other numeric type to an INT or FLOAT
   * variable, local or global: after the address (global only) and the
   * resolved right side, the value is converted (`fmovi` into a fresh
   * integer register for an INT target, `imovf` into a fresh float register
   * for a FLOAT one) and the converted register is stored to the variable's
   * address as an offset from `fp`.
   */
  lemma AssignConvertsBeforeStore(g: Gen, sym: Sym, ty: InnerType, right: CodeObject)
    requires NumericTy(Some(ty)) && NumericTy(right.ty) && right.ty != Some(ty)
    ensures var il := if sym.isLocal then [] else [La(IntTemp(g.intRegCount + 1), sym.addr)];
      && var rv := RvalifyIfLval(if sym.isLocal then g else g.(intRegCount := g.intRegCount + 1), right);
      && rv.res.Ok?
      && var r := PostAssign(g, PostVar(sym, ty), right);
      && r.res.Ok? && r.res.value.temp.Some?
      && var nt := r.res.value.temp.value;
      && var v := Operand(rv.res.value.temp);
      && r.res.value.code == il + rv.res.value.code
           + [if ty == INT then FmovI(v, nt) else ImovF(v, nt), StoreFor(ty, nt, "fp", sym.addr)]
      && nt !in UsedTemps(g)
  {
    if sym.isLocal {
      AssignConvertsLocal(g, sym, ty, right);
    } else {
      AssignConvertsGlobal(g, sym, ty, right);
    }
  }

  /** `AssignConvertsBeforeStore` for a local variable: no address is materialised. */
  lemma AssignConvertsLocal(g: Gen, sym: Sym, ty: InnerType, right: CodeObject)
    requires sym.isLocal && NumericTy(Some(ty)) && NumericTy(right.ty) && right.ty != Some(ty)
    ensures var rv := RvalifyIfLval(g, right);
      && rv.res.Ok?
      && var r := PostAssign(g, PostVar(sym, ty), right);
      && r.res.Ok? && r.res.value.temp == Some(NewTemp(rv.gen, ty).Extract().0)
      && var nt := r.res.value.temp.value;
      && var v := Operand(rv.res.value.temp);
      && r.res.value.code == [] + rv.res.value.code
           + [if ty == INT then FmovI(v, nt) else ImovF(v, nt), StoreFor(ty, nt, "fp", sym.addr)]
      && nt !in UsedTemps(g)
  {
    var rv := RvalifyIfLval(g, right);
    LaterTempsFresh(g, rv.gen, ty);
    assert [] + rv.res.value.code == rv.res.value.code;
  }

  /** `AssignConvertsBeforeStore` for a global variable: its address is loaded first. */
  lemma AssignConvertsGlobal(g: Gen, sym: Sym, ty: InnerType, right: CodeObject)
    requires !sym.isLocal && NumericTy(Some(ty)) && NumericTy(right.ty) && right.ty != Some(ty)
    ensures var g1 := g.(intRegCount := g.intRegCount + 1);
      && var rv := RvalifyIfLval(g1, right);
      && rv.res.Ok?
      && var r := PostAssign(g, PostVar(sym, ty), right);
      && r.res.Ok? && r.res.value.temp == Some(NewTemp(rv.gen, ty).Extract().0)
      && var nt := r.res.value.temp.value;
      && var v := Operand(rv.res.value.temp);
      && r.res.value.code == [La(IntTemp(g1.intRegCount), sym.addr)] + rv.res.value.code
           + [if ty == INT then FmovI(v, nt) else ImovF(v, nt), StoreFor(ty, nt, "fp", sym.addr)]
      && nt !in UsedTemps(g)
  {
    if right.lval {
      AssignConvertsGlobalVariable(g, sym, ty, right);
    } else {
      LaterTempsFresh(g, g.(intRegCount := g.intRegCount + 1), ty);
    }
  }

  /** `AssignConvertsGlobal` when the right side is itself a variable, loaded before the conversion. */
  lemma AssignConvertsGlobalVariable(g: Gen, sym: Sym, ty: InnerType, right: CodeObject)
    requires !sym.isLocal && NumericTy(Some(ty)) && NumericTy(right.ty) && right.ty != Some(ty) && right.lval
    ensures var g1 := g.(intRegCount := g.intRegCount + 1);
      && var rv := RvalifyIfLval(g1, right);
      && rv.res.Ok?
      && var r := PostAssign(g, PostVar(sym, ty), right);
      && r.res.Ok? && r.res.value.temp == Some(NewTemp(rv.gen, ty).Extract().0)
      && var nt := r.res.value.temp.value;
      && var v := Operand(rv.res.value.temp);
      && r.res.value.code == [La(IntTemp(g1.intRegCount), sym.addr)] + rv.res.value.code
           + [if ty == INT then FmovI(v, nt) else ImovF(v, nt), StoreFor(ty, nt, "fp", sym.addr)]
      && nt !in UsedTemps(g)
  {
    var g1 := g.(intRegCount := g.intRegCount + 1);
    var rv := RvalifyIfLval(g1, right);
    assert AddrFromVariable(g, PostVar(sym, ty)) == ([La(IntTemp(g1.intRegCount), sym.addr)], g1);
    LaterTempsFresh(g, rv.gen, ty);
  }

  /**
   * Assigning to a variable without conversion: an INT or FLOAT variable
   * given a value of its own type, or a PTR variable given any value. After
   * the `la` of the address (global only) and the resolved right side, one
   * store of the value's register goes to the variable's address as an
   * offset from `fp`; the store is `fsw` exactly when the value is FLOAT, so
   * a PTR target uses `fsw` only for a FLOAT right side. Nothing else is
   * drawn after the resolution.
   */
  lemma AssignVariableStore(g: Gen, sym: Sym, ty: InnerType, right: CodeObject)
    requires IsScalar(ty) && right.ty.Some? && (right.lval ==> IsScalar(right.ty.value))
    requires ty != PTR ==> right.ty == Some(ty)
    ensures var g1 := if sym.isLocal then g else g.(intRegCount := g.intRegCount + 1);
      && var il := if sym.isLocal then [] else [La(IntTemp(g1.intRegCount), sym.addr)];
      && var rv := RvalifyIfLval(g1, right);
      && rv.res.Ok?
      && var r := PostAssign(g, PostVar(sym, ty), right);
      && r.res.Ok? && r.gen == rv.gen
      && r.res.value.temp == (if sym.isLocal then None else Some(IntTemp(g1.intRegCount)))
      && r.res.value.code == il + rv.res.value.code
           + [StoreFor(right.ty.value, Operand(rv.res.value.temp), "fp", sym.addr)]
      && (r.res.value.code[|r.res.value.code| - 1].Fsw? <==> right.ty == Some(FLOAT))
  {
    var g1 := g.(intRegCount := g.intRegCount + 1);
    if !sym.isLocal {
      assert AddrFromVariable(g, PostVar(sym, ty)) == ([La(IntTemp(g1.intRegCount), sym.addr)], g1);
    }
  }

  /**
   * Assigning through an lvalue with no symbol (a dereferenced pointer):
   * the right side is resolved to an rvalue and its register is stored at
   * offset 0 of the lvalue's register, with `fsw` exactly when the value is
   * FLOAT.
   */
  lemma AssignThroughPointer(g: Gen, left: CodeObject, right: CodeObject)
    requires left.lval && left.ste.None? && right.ty.Some? && (right.lval ==> IsScalar(right.ty.value))
    ensures var rv := RvalifyIfLval(g, right);
      && rv.res.Ok?
      && PostAssign(g, left, right)
         == Done(Stored(left.code + rv.res.value.code
                        + [StoreFor(right.ty.value, Operand(rv.res.value.temp), Operand(left.temp), "0")], left.temp), rv.gen)
  {
  }
}
