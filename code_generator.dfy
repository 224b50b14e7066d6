/**
 * The generator object itself. Its fields are the counters the Java class
 * updates in place; each method performs the same steps as the Java method
 * of that name, drawing names from the counters through the allocation
 * methods, and is proved to produce exactly the result and the new state
 * that the specification functions of the other modules give for the old
 * state.
 */
module CodeGen {
  import opened Wrappers
  import opened Numerals
  import opened Scope
  import opened CastNodes
  import opened Instructions
  import opened CodeObjects
  import opened Alloc
  import opened Ast
  import Resolve
  import Expressions
  import Control
  import Calls
  import Lowering

  class CodeGenerator {
    var intRegCount: nat
    var floatRegCount: nat
    var unknownLabel: nat
    var loopLabel: nat
    var elseLabel: nat
    var outLabel: nat
    var currFunc: Option<string>

    /** The generator's fields as a state value. */
    function St(): Gen
      reads this
    {
      Gen(intRegCount, floatRegCount, unknownLabel, loopLabel, elseLabel, outLabel, currFunc)
    }

    /** All counters start at zero; no function is being lowered yet. */
    constructor()
      ensures St() == InitialGen
    {
      unknownLabel := 0;
      loopLabel := 0;
      elseLabel := 0;
      outLabel := 0;
      intRegCount := 0;
      floatRegCount := 0;
      currFunc := None;
    }

    /** `generateTemp`. */
    method GenerateTemp(t: InnerType) returns (r: Result<string, Failure>)
      modifies this
      ensures Out(r, St()) == NewTemp(old(St()), t)
    {
      match t
      case INT =>
        intRegCount := intRegCount + 1;
        r := Ok(IntTemp(intRegCount));
      case PTR =>
        intRegCount := intRegCount + 1;
        r := Ok(IntTemp(intRegCount));
      case FLOAT =>
        floatRegCount := floatRegCount + 1;
        r := Ok(FloatTemp(floatRegCount));
      case _ =>
        r := Err(Fatal("Generating temp for bad type"));
    }

    /** `generateTemp` for a type it accepts. */
    method FreshTemp(t: InnerType) returns (name: string)
      requires IsScalar(t)
      modifies this
      ensures (name, St()) == NewTemp(old(St()), t).Extract()
    {
      var r := GenerateTemp(t);
      name := r.value;
    }

    /** `generateUnknownLabel`. */
    method GenerateUnknownLabel() returns (l: string)
      modifies this
      ensures (l, St()) == NewUnknownLabel(old(St()))
    {
      unknownLabel := unknownLabel + 1;
      l := "unknown_" + NatStr(unknownLabel);
    }

    /** `generateLoopLabel`. */
    method GenerateLoopLabel() returns (l: string)
      modifies this
      ensures (l, St()) == NewLoopLabel(old(St()))
    {
      loopLabel := loopLabel + 1;
      l := "loop_" + NatStr(loopLabel);
    }

    /** `generateElseLabel`. */
    method GenerateElseLabel() returns (l: string)
      modifies this
      ensures (l, St()) == NewElseLabel(old(St()))
    {
      elseLabel := elseLabel + 1;
      l := "else_" + NatStr(elseLabel);
    }

    /** `generateOutLabel`. */
    method GenerateOutLabel() returns (l: string)
      modifies this
      ensures (l, St()) == NewOutLabel(old(St()))
    {
      outLabel := outLabel + 1;
      l := "out_" + NatStr(outLabel);
    }

    /** `preprocess(FunctionNode)`. */
    method Preprocess(name: string)
      modifies this
      ensures St() == Alloc.Preprocess(old(St()), name)
    {
      currFunc := Some(name);
      intRegCount := 0;
      floatRegCount := 0;
    }

    /** `generateAddrFromVariable`. */
    method GenerateAddrFromVariable(lco: CodeObject) returns (il: seq<Instr>)
      requires lco.ste.Some?
      modifies this
      ensures (il, St()) == Resolve.AddrFromVariable(old(St()), lco)
    {
      var sym := lco.ste.value;
      if sym.isLocal {
        var t := FreshTemp(INT);
        il := [Addi("fp", sym.addr, t)];
      } else {
        var t := FreshTemp(INT);
        il := [La(t, sym.addr)];
      }
    }

    /** `rvalify`. */
    method Rvalify(lco: CodeObject) returns (r: Result<CodeObject, Failure>)
      requires lco.lval
      modifies this
      ensures Out(r, St()) == Resolve.Rvalify(old(St()), lco)
    {
      match lco.ste
      case Some(sym) =>
        if sym.isLocal {
          if !Resolve.ScalarTy(lco.ty) {
            return Err(Resolve.WrongType(lco.ty, "Wrong type"));
          }
          var t := lco.ty.value;
          var nt := FreshTemp(TempKind(t));
          r := Ok(Resolve.Loaded(lco, [Resolve.LoadFor(t, nt, "fp", sym.addr)] + lco.code, nt));
        } else {
          var il := GenerateAddrFromVariable(lco);
          if !Resolve.ScalarTy(lco.ty) {
            return Err(Resolve.WrongType(lco.ty, "Wrong type"));
          }
          var t := lco.ty.value;
          var nt := FreshTemp(TempKind(t));
          var code := il + lco.code + [Resolve.LoadFor(t, nt, Operand(Dest(il[|il| - 1])), "0")];
          if t == PTR {
            code := code + lco.code;
          } else {
            assert code + [] == code;
          }
          r := Ok(Resolve.Loaded(lco, code, nt));
        }
      case None =>
        if !Resolve.ScalarTy(lco.ty) {
          return Err(Resolve.WrongType(lco.ty, "Wrong type"));
        }
        var t := lco.ty.value;
        var nt := FreshTemp(TempKind(t));
        r := Ok(Resolve.Loaded(lco, lco.code + [Resolve.LoadFor(t, nt, Operand(lco.temp), "0")], nt));
    }

    /** `if (co.lval) co = rvalify(co)`. */
    method RvalifyIfLval(co: CodeObject) returns (r: Result<CodeObject, Failure>)
      modifies this
      ensures Out(r, St()) == Resolve.RvalifyIfLval(old(St()), co)
    {
      if co.lval {
        r := Rvalify(co);
      } else {
        r := Ok(co);
      }
    }

    /** The operand resolution of `postprocess(BinaryOpNode)`. */
    method LoadOperand(co: CodeObject) returns (r: Result<(seq<Instr>, string), Failure>)
      modifies this
      ensures Out(r, St()) == Resolve.LoadOperand(old(St()), co)
    {
      if !co.lval {
        return Ok((co.code, Operand(co.temp)));
      }
      if co.ste.Some? && co.ste.value.isLocal {
        if !Resolve.ScalarTy(co.ty) {
          return Err(Resolve.WrongType(co.ty, "Wrong type"));
        }
        var t := co.ty.value;
        var nt := FreshTemp(TempKind(t));
        r := Ok((co.code + [Resolve.LoadFor(t, nt, "fp", co.ste.value.addr)], nt));
      } else {
        var rv :- Rvalify(co);
        r := Ok((rv.code, Operand(rv.temp)));
      }
    }

    /** `postprocess(VarNode)`. */
    method PostVar(sym: Sym, ty: InnerType) returns (co: CodeObject)
      ensures co == Expressions.PostVar(sym, ty)
    {
      co := CodeObject([], None, true, Some(ty), None, Some(sym));
    }

    /** `postprocess(IntLitNode)`. */
    method PostIntLit(val: string) returns (co: CodeObject)
      modifies this
      ensures (co, St()) == Expressions.PostIntLit(old(St()), val)
    {
      var t := FreshTemp(INT);
      co := CodeObject([Li(t, val)], Some(t), false, Some(INT), None, None);
    }

    /** `postprocess(FloatLitNode)`. */
    method PostFloatLit(val: string) returns (co: CodeObject)
      modifies this
      ensures (co, St()) == Expressions.PostFloatLit(old(St()), val)
    {
      var t := FreshTemp(FLOAT);
      co := CodeObject([FImm(t, val)], Some(t), false, Some(FLOAT), None, None);
    }

    /** `postprocess(CastNode)`. */
    method PostCast(castTy: InnerType, expr: CodeObject) returns (r: Result<CodeObject, Failure>)
      modifies this
      ensures Out(r, St()) == Expressions.PostCast(old(St()), castTy, expr)
    {
      var e :- RvalifyIfLval(expr);
      if e.ty.None? {
        return Err(NullPointer);
      }
      if castTy != e.ty.value {
        if castTy == INT {
          var nt := FreshTemp(INT);
          r := Ok(CodeObject(e.code + [FmovI(Operand(e.temp), nt)], Some(nt), false, Some(INT), None, None));
        } else if castTy == FLOAT {
          var nt := FreshTemp(FLOAT);
          r := Ok(CodeObject(e.code + [ImovF(Operand(e.temp), nt)], Some(nt), false, Some(FLOAT), None, None));
        } else {
          r := Err(Fatal("Wrong type"));
        }
      } else {
        r := Ok(CodeObject(e.code, e.temp, false, Some(castTy), None, None));
      }
    }

    /** `postprocess(BinaryOpNode)`. */
    method PostBinaryOp(op: BinOp, left: CodeObject, right: CodeObject) returns (r: Result<CodeObject, Failure>)
      modifies this
      ensures Out(r, St()) == Expressions.PostBinaryOp(old(St()), op, left, right)
    {
      var lo :- LoadOperand(left);
      var ro :- LoadOperand(right);
      var (lcode, lreg) := lo;
      var (rcode, rreg) := ro;
      var code := lcode + rcode;
      if left.ty.None? {
        return Err(NullPointer);
      }
      var lt := left.ty.value;
      if lt == INT || lt == FLOAT {
        if right.ty.None? {
          return Err(NullPointer);
        }
        if right.ty == left.ty {
          var nt := FreshTemp(lt);
          var inst := if lt == INT then Expressions.IntOp(op, lreg, rreg, nt) else Expressions.FloatOp(op, lreg, rreg, nt);
          r := Ok(Expressions.Arith(code + [inst], nt, left, right));
        } else {
          var nt := FreshTemp(FLOAT);
          var src := FreshTemp(FLOAT);
          if lt == INT {
            code := code + [ImovF(lreg, src), Expressions.FloatOp(op, src, rreg, nt)];
          } else {
            code := code + [ImovF(rreg, src), Expressions.FloatOp(op, lreg, src, nt)];
          }
          r := Ok(Expressions.Arith(code, nt, left, right));
        }
      } else if lt == PTR {
        var nt := FreshTemp(INT);
        if right.ty.None? {
          return Err(NullPointer);
        }
        r := Ok(Expressions.Arith(code + [Expressions.IntOp(op, lreg, rreg, nt)], nt, left, right));
      } else {
        r := Err(Fatal("Shouldn't read into other variable"));
      }
    }

    /** `postprocess(UnaryOpNode)`. */
    method PostUnaryOp(op: UnOp, expr: CodeObject) returns (r: Result<CodeObject, Failure>)
      modifies this
      ensures Out(r, St()) == Expressions.PostUnaryOp(old(St()), op, expr)
    {
      var code := expr.code;
      if expr.ste.Some? {
        var il := GenerateAddrFromVariable(expr);
        code := code + il;
      } else {
        assert code + [] == code;
      }
      if !Resolve.NumericTy(expr.ty) {
        return Err(Resolve.WrongType(expr.ty, if expr.lval then "Wrong type" else "Shouldn't read into other variable"));
      }
      var t := expr.ty.value;
      var reg := Operand(expr.temp);
      if expr.lval {
        var nt := FreshTemp(t);
        code := code + [Resolve.LoadFor(t, nt, reg, "0")];
        reg := nt;
      }
      var d := FreshTemp(t);
      match op
      case NEG =>
        var inst := if t == INT then Neg(reg, d) else FNeg(reg, d);
        r := Ok(CodeObject(code + [inst], Some(d), false, expr.ty, None, None));
    }

    /** `postprocess(AssignNode)`. */
    method PostAssign(left: CodeObject, right: CodeObject) returns (r: Result<CodeObject, Failure>)
      modifies this
      ensures Out(r, St()) == Expressions.PostAssign(old(St()), left, right)
    {
      if !left.lval {
        return Err(AssertionFailed);
      }
      var lcode := left.code;
      var ltemp := left.temp;
      if left.ste.Some? && !left.ste.value.isLocal {
        var il := GenerateAddrFromVariable(left);
        lcode := lcode + il;
        ltemp := Dest(il[|il| - 1]);
      }
      var rv :- RvalifyIfLval(right);
      var code := lcode + rv.code;
      var value := Operand(rv.temp);
      if rv.ty.None? {
        if left.ste.Some? && !Resolve.ScalarTy(left.ty) {
          return Err(Resolve.WrongType(left.ty, "Wrong Type"));
        }
        return Err(NullPointer);
      }
      var rt := rv.ty.value;
      match left.ste
      case Some(sym) =>
        if left.ty == Some(INT) || left.ty == Some(FLOAT) {
          var lt := left.ty.value;
          if rt == lt {
            r := Ok(Expressions.Stored(code + [Resolve.StoreFor(lt, value, "fp", sym.addr)], ltemp));
          } else {
            var nt := FreshTemp(lt);
            var conv := if lt == INT then FmovI(value, nt) else ImovF(value, nt);
            r := Ok(Expressions.Stored(code + [conv, Resolve.StoreFor(lt, nt, "fp", sym.addr)], Some(nt)));
          }
        } else if left.ty == Some(PTR) {
          r := Ok(Expressions.Stored(code + [Resolve.StoreFor(rt, value, "fp", sym.addr)], ltemp));
        } else {
          r := Err(Resolve.WrongType(left.ty, "Wrong Type"));
        }
      case None =>
        r := Ok(Expressions.Stored(code + [Resolve.StoreFor(rt, value, Operand(ltemp), "0")], ltemp));
    }

    /** `postprocess(PtrDerefNode)`. */
    method PostPtrDeref(ty: InnerType, expr: CodeObject) returns (r: Result<CodeObject, Failure>)
      modifies this
      ensures Out(r, St()) == Expressions.PostPtrDeref(old(St()), ty, expr)
    {
      var e :- RvalifyIfLval(expr);
      r := Ok(CodeObject(e.code, e.temp, true, Some(ty), None, None));
    }

    /** `postprocess(AddrOfNode)`. */
    method PostAddrOf(ty: InnerType, expr: CodeObject) returns (co: CodeObject)
      modifies this
      ensures (co, St()) == Expressions.PostAddrOf(old(St()), ty, expr)
    {
      co := CodeObject(expr.code, None, false, Some(ty), None, None);
      if expr.ste.Some? {
        var il := GenerateAddrFromVariable(expr);
        co := co.(code := il + expr.code, temp := Dest(il[|il| - 1]));
      }
    }

    /** `postprocess(MallocNode)`. */
    method PostMalloc(ty: InnerType, expr: CodeObject) returns (r: Result<CodeObject, Failure>)
      modifies this
      ensures Out(r, St()) == Expressions.PostMalloc(old(St()), ty, expr)
    {
      var e :- RvalifyIfLval(expr);
      var nt := FreshTemp(INT);
      r := Ok(CodeObject(e.code + [Malloc(Operand(e.temp), nt)], Some(nt), false, Some(ty), None, None));
    }

    /** `postprocess(FreeNode)`. */
    method PostFree(expr: CodeObject) returns (r: Result<CodeObject, Failure>)
      modifies this
      ensures Out(r, St()) == Expressions.PostFree(old(St()), expr)
    {
      var e :- RvalifyIfLval(expr);
      r := Ok(CodeObject(e.code + [Free(Operand(e.temp))], None, false, None, None, None));
    }

    /** `postprocess(StatementListNode)`. */
    method PostStatementList(stmts: seq<CodeObject>) returns (co: CodeObject)
      ensures co == Control.PostStatementList(stmts)
    {
      var code := [];
      for i := 0 to |stmts|
        invariant code == Control.ConcatCode(stmts[..i])
      {
        assert stmts[..i + 1][..i] == stmts[..i];
        code := code + stmts[i].code;
      }
      assert stmts[..|stmts|] == stmts;
      co := Control.Stmt(code);
    }

    /** `postprocess(ReadNode)`. */
    method PostRead(ty: InnerType, target: CodeObject) returns (r: Result<CodeObject, Failure>)
      modifies this
      ensures Out(r, St()) == Control.PostRead(old(St()), ty, target)
    {
      if target.ste.None? {
        return Err(AssertionFailed);
      }
      if ty != INT && ty != FLOAT {
        return Err(Fatal("Shouldn't read into other variable"));
      }
      var sym := target.ste.value;
      var t := FreshTemp(ty);
      var get := if ty == INT then GetI(t) else GetF(t);
      if sym.isLocal {
        r := Ok(Control.Stmt([get, Resolve.StoreFor(ty, t, "fp", sym.addr)]));
      } else {
        var il := GenerateAddrFromVariable(target);
        r := Ok(Control.Stmt([get] + il + [Resolve.StoreFor(ty, t, Operand(Dest(il[|il| - 1])), "0")]));
      }
    }

    /** `postprocess(WriteNode)`, given the written expression's static type. */
    method PostWrite(writeTy: Option<InnerType>, expr: CodeObject) returns (r: Result<CodeObject, Failure>)
      modifies this
      ensures Out(r, St()) == Control.PostWrite(old(St()), writeTy, expr)
    {
      if writeTy.None? {
        return Err(NullPointer);
      }
      if writeTy == Some(STRING) {
        if expr.ste.None? {
          return Err(AssertionFailed);
        }
        var il := GenerateAddrFromVariable(expr);
        return Ok(Control.Stmt(il + [PutS(Operand(Dest(il[|il| - 1])))]));
      }
      var e :- RvalifyIfLval(expr);
      match writeTy.value
      case INT => r := Ok(Control.Stmt(e.code + [PutI(Operand(e.temp))]));
      case PTR => r := Ok(Control.Stmt(e.code + [PutI(Operand(e.temp))]));
      case FLOAT => r := Ok(Control.Stmt(e.code + [PutF(Operand(e.temp))]));
      case _ => r := Err(Fatal("WriteNode has a weird type"));
    }

    /** The left-operand part of `postprocess(CondNode)`. */
    method CondLeft(left: CodeObject) returns (r: Result<(seq<Instr>, string), Failure>)
      modifies this
      ensures Out(r, St()) == Control.CondLeft(old(St()), left)
    {
      var lcode := left.code;
      if left.ste.Some? && !left.ste.value.isLocal {
        var il := GenerateAddrFromVariable(left);
        lcode := lcode + il;
      }
      if left.ste.Some? && !left.lval {
        return Ok((lcode, Operand(left.temp)));
      }
      if !Resolve.NumericTy(left.ty) {
        return Err(Resolve.WrongType(left.ty, "Wrong type"));
      }
      var t := left.ty.value;
      var nt := FreshTemp(t);
      var base, offset;
      match left.ste {
        case Some(sym) =>
          if sym.isLocal {
            base, offset := "fp", sym.addr;
          } else {
            base, offset := Operand(Dest(lcode[|lcode| - 1])), "0";
          }
        case None =>
          base, offset := Operand(left.temp), "0";
      }
      r := Ok((lcode + [Resolve.LoadFor(t, nt, base, offset)], nt));
    }

    /** The right-operand part of `postprocess(CondNode)`. */
    method CondRight(right: CodeObject) returns (r: Result<(seq<Instr>, string), Failure>)
      modifies this
      ensures Out(r, St()) == Control.CondRight(old(St()), right)
    {
      var rcode := right.code;
      if right.ste.Some? {
        var il := GenerateAddrFromVariable(right);
        rcode := rcode + il;
      }
      if rcode == [] {
        return Err(NoSuchElement);
      }
      var reg := Operand(Dest(rcode[|rcode| - 1]));
      if !right.lval {
        return Ok((rcode, reg));
      }
      if !Resolve.NumericTy(right.ty) {
        return Err(Resolve.WrongType(right.ty, "Wrong type"));
      }
      var t := right.ty.value;
      var nt := FreshTemp(t);
      r := Ok((rcode + [Resolve.LoadFor(t, nt, reg, "0")], nt));
    }

    /** The float branch of `postprocess(CondNode)`. */
    method FloatCompare(op: CondOp, l: string, rr: string, target: string) returns (code: seq<Instr>)
      modifies this
      ensures (code, St()) == Control.FloatCompare(old(St()), op, l, rr, target)
    {
      match op
      case EQ => code := [Feq(l, rr, target)];
      case NE => code := [Bne(l, rr, target)];
      case GE =>
        var a := FreshTemp(INT);
        code := [Flt(l, rr, a), Beq(a, "x0", target)];
      case _ =>
        var a := FreshTemp(INT);
        var test := if op == LT then Flt(l, rr, a) else Fle(l, rr, a);
        var b := FreshTemp(INT);
        var branch := if op == LE then Beq(b, "x0", target) else Bne(b, "x0", target);
        code := [test, branch];
    }

    /** `postprocess(CondNode)`, given the operator its branch tests. */
    method PostCond(op: CondOp, left: CodeObject, right: CodeObject) returns (r: Result<CodeObject, Failure>)
      modifies this
      ensures Out(r, St()) == Control.PostCond(old(St()), op, left, right)
    {
      var lo :- CondLeft(left);
      var ro :- CondRight(right);
      var code := lo.0 + ro.0;
      if !Resolve.NumericTy(left.ty) {
        return Err(Resolve.WrongType(left.ty, "Shouldn't read into other variable"));
      }
      var target := GenerateUnknownLabel();
      if left.ty == Some(INT) {
        code := code + [Control.IntBranch(op, lo.1, ro.1, target)];
      } else {
        var tail := FloatCompare(op, lo.1, ro.1, target);
        code := code + tail;
      }
      r := Ok(CodeObject(code, None, true, left.ty, None, None));
    }

    /** `postprocess(IfStatementNode)`. */
    method PostIf(cond: CodeObject, thenList: CodeObject, elseList: CodeObject) returns (r: Result<CodeObject, Failure>)
      modifies this
      ensures Out(r, St()) == Control.PostIf(old(St()), cond, thenList, elseList)
    {
      var elseL := GenerateElseLabel();
      var outL := GenerateOutLabel();
      if cond.code == [] {
        return Err(IndexOutOfBounds);
      }
      var n := |cond.code|;
      var hasElse := elseList.code != [];
      var condop := Relabel(cond.code[n - 1], if hasElse then elseL else outL);
      var tcode := thenList.code;
      if hasElse {
        tcode := tcode + [J(outL), Label(elseL)];
      } else {
        assert tcode + [] == tcode;
      }
      r := Ok(Control.Stmt(cond.code[..n - 1] + [condop] + tcode + elseList.code + [Label(outL)]));
    }

    /** `postprocess(WhileNode)`. */
    method PostWhile(cond: CodeObject, body: CodeObject) returns (r: Result<CodeObject, Failure>)
      modifies this
      ensures Out(r, St()) == Control.PostWhile(old(St()), cond, body)
    {
      var loopL := GenerateLoopLabel();
      var outL := GenerateOutLabel();
      if cond.code == [] {
        return Err(IndexOutOfBounds);
      }
      var n := |cond.code|;
      var condop := Relabel(cond.code[n - 1], outL);
      r := Ok(Control.Stmt([Label(loopL)] + (cond.code[..n - 1] + [condop]) + body.code + [J(loopL), Label(outL)]));
    }

    /** `postprocess(ReturnNode)`. */
    method PostReturn(funcTy: InnerType, retExpr: Option<CodeObject>) returns (r: Result<CodeObject, Failure>)
      modifies this
      ensures Out(r, St()) == Calls.PostReturn(old(St()), funcTy, retExpr)
    {
      if funcTy == VOID {
        return Ok(EmptyCo);
      }
      if retExpr.None? {
        return Err(NullPointer);
      }
      var e :- RvalifyIfLval(retExpr.value);
      if e.ty.None? {
        return Err(NullPointer);
      }
      var t := e.ty.value;
      var code := e.code;
      if t == INT || t == PTR {
        code := code + [Sw(Operand(e.temp), "fp", "8")];
      } else if t == FLOAT {
        code := code + [Fsw(Operand(e.temp), "fp", "8")];
      } else if t == VOID {
        assert code + [] == code;
      } else {
        return Err(Fatal("Wrong Call Type"));
      }
      r := Ok(Control.Stmt(code + [J(FunctionOutLabel(St()))]));
    }

    /** `postprocess(FunctionNode)`, run in the state reached after the body. */
    method PostFunction(name: string, numLocals: nat, body: CodeObject) returns (co: CodeObject)
      ensures co == Calls.PostFunction(St(), name, numLocals, body)
    {
      var saveInts := SaveTemps(INT, intRegCount);
      var saveFloats := SaveTemps(FLOAT, floatRegCount);
      var restoreFloats := RestoreTemps(FLOAT, floatRegCount);
      var restoreInts := RestoreTemps(INT, intRegCount);
      co := Control.Stmt(Calls.Prologue(name, numLocals) + saveInts + saveFloats + body.code
                         + [Label(FunctionOutLabel(St()))] + restoreFloats + restoreInts + Calls.Epilogue);
    }

    /** The register-save loop of `postprocess(FunctionNode)`: temporaries 1..n, in increasing order. */
    method SaveTemps(kind: InnerType, n: nat) returns (code: seq<Instr>)
      ensures code == Calls.Save(kind, n)
    {
      code := [];
      for i := 1 to n + 1
        invariant code == Calls.Save(kind, i - 1)
      {
        code := code + [Resolve.StoreFor(kind, Calls.Reg(kind, i), "sp", "0"), Calls.MoveSp("-4")];
      }
    }

    /** The register-restore loop of `postprocess(FunctionNode)`: temporaries n down to 1. */
    method RestoreTemps(kind: InnerType, n: nat) returns (code: seq<Instr>)
      ensures code == Calls.Restore(kind, n, 0)
    {
      code := [];
      var i: nat := n;
      while i > 0
        invariant i <= n
        invariant code == Calls.Restore(kind, n, i)
      {
        code := code + [Calls.MoveSp("4"), Resolve.LoadFor(kind, Calls.Reg(kind, i), "sp", "0")];
        i := i - 1;
      }
    }

    /** `postprocess(FunctionListNode)`. */
    method PostFunctionList(funcs: seq<CodeObject>) returns (co: CodeObject)
      ensures co == Calls.PostFunctionList(funcs)
    {
      var code := Calls.StartUp;
      for i := 0 to |funcs|
        invariant code == Calls.StartUp + Calls.JoinFunctions(funcs[..i])
      {
        assert funcs[..i + 1][..i] == funcs[..i];
        code := code + funcs[i].code + [Blank];
      }
      assert funcs[..|funcs|] == funcs;
      co := Control.Stmt(code);
    }

    /** Pushing one argument of a call. */
    method PushArg(arg: CodeObject) returns (r: Result<seq<Instr>, Failure>)
      modifies this
      ensures Out(r, St()) == Calls.PushArg(old(St()), arg)
    {
      var e :- RvalifyIfLval(arg);
      if e.ty.None? {
        return Err(NullPointer);
      }
      var store := [];
      match e.ty.value {
        case INT => store := [Sw(Operand(e.temp), "sp", "0")];
        case FLOAT => store := [Fsw(Operand(e.temp), "sp", "0")];
        case PTR =>
          if e.temp.Some? {
            store := [Sw(e.temp.value, "sp", "0")];
          } else if e.code == [] {
            return Err(NoSuchElement);
          } else {
            store := [Sw(Operand(Dest(e.code[|e.code| - 1])), "sp", "0")];
          }
        case VOID =>
        case _ => return Err(Fatal("Wrong Call Type"));
      }
      r := Ok(e.code + store + [Calls.MoveSp("-4")]);
    }

    /** Pushing a call's arguments left to right. */
    method PushArgs(args: seq<CodeObject>) returns (r: Result<seq<Instr>, Failure>)
      modifies this
      ensures Out(r, St()) == Calls.PushArgs(old(St()), args)
    {
      var code := [];
      for i := 0 to |args|
        invariant Calls.PushArgs(old(St()), args[..i]) == Done(code, St())
      {
        assert args[..i + 1][..i] == args[..i];
        var one := PushArg(args[i]);
        if one.Err? {
          Calls.PushArgsStopsAtFailure(old(St()), args, i + 1);
          return Err(one.error);
        }
        code := code + one.value;
      }
      assert args[..|args|] == args;
      r := Ok(code);
    }

    /** `postprocess(CallNode)`, given the static types of the argument nodes. */
    method PostCall(ty: InnerType, name: string, argTys: seq<Option<InnerType>>, args: seq<CodeObject>,
                    sameType: (Option<InnerType>, Option<InnerType>) -> bool) returns (r: Result<CodeObject, Failure>)
      modifies this
      ensures Out(r, St()) == Calls.PostCall(old(St()), ty, name, argTys, args, sameType)
    {
      if |argTys| != |args| {
        return Err(Exit(7));
      }
      for i := 0 to |args|
        invariant forall j :: 0 <= j < i ==> sameType(argTys[j], args[j].ty)
      {
        if !sameType(argTys[i], args[i].ty) {
          return Err(Exit(7));
        }
      }
      var push :- PushArgs(args);
      var code := push + Calls.Linkage(name);
      var popArgs := Calls.MoveSp(NatStr(4 * |args|));
      if IsScalar(ty) {
        var nt := FreshTemp(ty);
        r := Ok(CodeObject(code + [Resolve.LoadFor(ty, nt, "sp", "0"), popArgs], Some(nt), false, Some(ty), None, None));
      } else if ty == VOID {
        r := Ok(CodeObject(code + [popArgs], Some("0"), false, Some(ty), None, None));
      } else {
        r := Err(Fatal("Wrong Call Type"));
      }
    }

    /**
     * The visitor's walk over one node: children first, left to right, then
     * the node's `postprocess`; `preprocess` before a function's body.
     */
    method Generate(n: Node, sameType: (Option<InnerType>, Option<InnerType>) -> bool) returns (r: Result<CodeObject, Failure>)
      modifies this
      ensures Out(r, St()) == Lowering.Lower(old(St()), n, sameType)
      decreases n, 2
    {
      match n {
        case VarRef(sym, ty) =>
          r := Ok(Expressions.PostVar(sym, ty));
        case IntLit(v) =>
          var co := PostIntLit(v);
          r := Ok(co);
        case FloatLit(v) =>
          var co := PostFloatLit(v);
          r := Ok(co);
        case BinaryOp(_, _, _, _) => r := GenerateTwoChildren(n, sameType);
        case Assign(_, _) => r := GenerateTwoChildren(n, sameType);
        case Cond(_, _, _) => r := GenerateTwoChildren(n, sameType);
        case If(_, _, _) => r := GenerateTwoChildren(n, sameType);
        case While(_, _) => r := GenerateTwoChildren(n, sameType);
        case StatementList(_) => r := GenerateList(n, sameType);
        case Call(_, _, _) => r := GenerateList(n, sameType);
        case Function(_, _, _) => r := GenerateList(n, sameType);
        case FunctionList(_) => r := GenerateList(n, sameType);
        case PtrDeref(_, _) => r := GenerateMemory(n, sameType);
        case AddrOf(_, _) => r := GenerateMemory(n, sameType);
        case MallocCall(_) => r := GenerateMemory(n, sameType);
        case FreeCall(_) => r := GenerateMemory(n, sameType);
        case _ => r := GenerateOneChild(n, sameType);
      }
    }

    /** The walk over a node with one child (or an optional one). */
    method GenerateOneChild(n: Node, sameType: (Option<InnerType>, Option<InnerType>) -> bool) returns (r: Result<CodeObject, Failure>)
      requires n.Cast? || n.UnaryOp? || n.Read? || n.Write? || n.Return?
      modifies this
      ensures Out(r, St()) == Lowering.Lower(old(St()), n, sameType)
      decreases n, 1
    {
      if n.Cast? {
        var e :- Generate(n.cast.expr, sameType);
        r := PostCast(n.cast.ty, e);
      } else if n.UnaryOp? {
        var e :- Generate(n.expr, sameType);
        r := PostUnaryOp(n.uop, e);
      } else if n.Read? {
        var t :- Generate(n.target, sameType);
        r := PostRead(n.ty, t);
      } else if n.Write? {
        var e :- Generate(n.expr, sameType);
        r := PostWrite(NodeType(n.expr), e);
      } else if n.retExpr.None? {
        r := PostReturn(n.funcType, None);
      } else {
        var co :- Generate(n.retExpr.value, sameType);
        r := PostReturn(n.funcType, Some(co));
      }
    }

    /** The walk over a pointer or heap node. */
    method GenerateMemory(n: Node, sameType: (Option<InnerType>, Option<InnerType>) -> bool) returns (r: Result<CodeObject, Failure>)
      requires n.PtrDeref? || n.AddrOf? || n.MallocCall? || n.FreeCall?
      modifies this
      ensures Out(r, St()) == Lowering.Lower(old(St()), n, sameType)
      decreases n, 1
    {
      if n.PtrDeref? {
        var e :- Generate(n.expr, sameType);
        r := PostPtrDeref(n.ty, e);
      } else if n.AddrOf? {
        var e :- Generate(n.expr, sameType);
        var co := PostAddrOf(n.ty, e);
        r := Ok(co);
      } else if n.MallocCall? {
        var e :- Generate(n.expr, sameType);
        r := PostMalloc(INFER, e);
      } else {
        var e :- Generate(n.expr, sameType);
        r := PostFree(e);
      }
    }

    /** The walk over a node with two or three children. */
    method GenerateTwoChildren(n: Node, sameType: (Option<InnerType>, Option<InnerType>) -> bool) returns (r: Result<CodeObject, Failure>)
      requires n.BinaryOp? || n.Assign? || n.Cond? || n.If? || n.While?
      modifies this
      ensures Out(r, St()) == Lowering.Lower(old(St()), n, sameType)
      decreases n, 1
    {
      if n.If? {
        var c :- Generate(n.cond, sameType);
        var t :- Generate(n.thenList, sameType);
        var e :- Generate(n.elseList, sameType);
        r := PostIf(c, t, e);
      } else if n.While? {
        var c :- Generate(n.cond, sameType);
        var b :- Generate(n.body, sameType);
        r := PostWhile(c, b);
      } else {
        var l :- Generate(n.left, sameType);
        var rr :- Generate(n.right, sameType);
        if n.BinaryOp? {
          r := PostBinaryOp(n.op, l, rr);
        } else if n.Assign? {
          r := PostAssign(l, rr);
        } else {
          r := PostCond(Reversed(n.cop), l, rr);
        }
      }
    }

    /** The walk over a node with a list of children, or a function. */
    method GenerateList(n: Node, sameType: (Option<InnerType>, Option<InnerType>) -> bool) returns (r: Result<CodeObject, Failure>)
      requires n.StatementList? || n.Call? || n.Function? || n.FunctionList?
      modifies this
      ensures Out(r, St()) == Lowering.Lower(old(St()), n, sameType)
      decreases n, 1
    {
      if n.StatementList? {
        var cos :- GenerateAll(n.stmts, sameType);
        var co := PostStatementList(cos);
        r := Ok(co);
      } else if n.Call? {
        var cos :- GenerateAll(n.args, sameType);
        r := PostCall(n.ty, n.name, Lowering.ArgTypes(n.args), cos, sameType);
      } else if n.Function? {
        Preprocess(n.name);
        var b :- Generate(n.body, sameType);
        var co := PostFunction(n.name, n.numLocals, b);
        r := Ok(co);
      } else {
        var cos :- GenerateAll(n.funcs, sameType);
        var co := PostFunctionList(cos);
        r := Ok(co);
      }
    }

    /** The visitor's walk over a list of sibling nodes, left to right. */
    method GenerateAll(ns: seq<Node>, sameType: (Option<InnerType>, Option<InnerType>) -> bool) returns (r: Result<seq<CodeObject>, Failure>)
      modifies this
      ensures Out(r, St()) == Lowering.LowerAll(old(St()), ns, sameType)
      decreases ns, 0
    {
      var cos := [];
      for i := 0 to |ns|
        invariant Lowering.LowerAll(old(St()), ns[..i], sameType) == Done(cos, St())
      {
        assert ns[..i + 1][..i] == ns[..i];
        var co := Generate(ns[i], sameType);
        if co.Err? {
          Lowering.LowerAllStopsAtFailure(old(St()), ns, i + 1, sameType);
          return Err(co.error);
        }
        cos := cos + [co.value];
      }
      assert ns[..|ns|] == ns;
      r := Ok(cos);
    }
  }
}
