/**
 * Stack-pointer bookkeeping, measured as the sum of the `addi sp`
 * adjustments of a straight-line sequence (`SpNet`); the only other write
 * to `sp`, the epilogue's `mv fp, sp`, is not counted. Every expression and
 * statement the generator lowers, calls included, has adjustments that sum
 * to zero: each argument push
 * (`addi sp, -4`) is undone by the single `addi sp, 4*nargs` after the call,
 * and the return slot and return address are popped by the linkage. Inside a
 * function, the register saves and restores cancel out, so after the restore
 * `sp` is back at the bottom of the frame the prologue set up.
 */
module StackDiscipline {
  import opened Wrappers
  import opened Numerals
  import opened Scope
  import opened CastNodes
  import opened Instructions
  import opened CodeObjects
  import opened Alloc
  import opened Resolve
  import opened Ast
  import opened Expressions
  import opened Control
  import opened Calls
  import opened Lowering

  /** A straight-line sequence whose `addi sp` adjustments sum to zero. */
  predicate Balanced(code: seq<Instr>)
  {
    SpNet(code) == 0
  }

  /** The stack-pointer adjustment of a concatenation is the sum of the parts'. */
  lemma {:induction false} SpNetAppend(a: seq<Instr>, b: seq<Instr>)
    ensures SpNet(a + b) == SpNet(a) + SpNet(b)
    decreases |b|
  {
    if b == [] {
      assert a + b == a;
    } else {
      assert (a + b)[..|a + b| - 1] == a + b[..|b| - 1];
      SpNetAppend(a, b[..|b| - 1]);
    }
  }

  /** A one-instruction sequence moves `sp` by that instruction's amount. */
  lemma SpNetSingle(i: Instr)
    ensures SpNet([i]) == SpDelta(i)
  {
    assert [i][..0] == [];
  }

  /** Appending one instruction adds its adjustment. */
  lemma SpNetSnoc(a: seq<Instr>, i: Instr)
    ensures SpNet(a + [i]) == SpNet(a) + SpDelta(i)
  {
    assert (a + [i])[..|a|] == a;
  }

  /** The immediates the generator writes into `addi sp, <imm>, sp` move `sp` by their value. */
  lemma MoveSpDelta(n: nat)
    ensures SpDelta(MoveSp(NatStr(n))) == n && SpDelta(MoveSp("-" + NatStr(n))) == -(n as int)
  {
    ParseIntNatStr(n);
  }

  /** The one-word adjustments: `addi sp, 4, sp` and `addi sp, -4, sp`. */
  lemma MoveSpFour()
    ensures SpDelta(MoveSp("4")) == 4 && SpDelta(MoveSp("-4")) == -4
  {
    assert "-4"[1..] == "4";
  }

  /** Re-targeting a branch does not touch the stack pointer. */
  lemma PatchedBalanced(cond: seq<Instr>, target: string)
    requires cond != []
    ensures SpNet(Patched(cond, target)) == SpNet(cond)
  {
    var n := |cond|;
    assert cond == cond[..n - 1] + [cond[n - 1]];
    SpNetAppend(cond[..n - 1], [cond[n - 1]]);
    SpNetAppend(cond[..n - 1], [Relabel(cond[n - 1], target)]);
  }

  /** `rvalify` of an operand whose code is balanced yields balanced code. */
  lemma RvalifyBalanced(g: Gen, lco: CodeObject)
    requires lco.lval && Balanced(lco.code)
    ensures var r := Rvalify(g, lco); r.res.Ok? ==> Balanced(r.res.value.code)
  {
    var r := Rvalify(g, lco);
    if r.res.Ok? {
      var t := lco.ty.value;
      var code := r.res.value.code;
      match lco.ste {
        case Some(sym) =>
          if sym.isLocal {
            var load := LoadFor(t, NewTemp(g, TempKind(t)).Extract().0, "fp", sym.addr);
            assert code == [load] + lco.code;
            SpNetAppend([load], lco.code);
            SpNetSingle(load);
          } else {
            var (il, g1) := AddrFromVariable(g, lco);
            AddrBalanced(g, lco);
            var load := LoadFor(t, NewTemp(g1, TempKind(t)).Extract().0, Operand(Dest(Last(il))), "0");
            var extra := if t == PTR then lco.code else [];
            assert code == il + lco.code + [load] + extra;
            SpNetAppend(il, lco.code);
            SpNetSnoc(il + lco.code, load);
            SpNetAppend(il + lco.code + [load], extra);
          }
        case None =>
          var load := LoadFor(t, NewTemp(g, TempKind(t)).Extract().0, Operand(lco.temp), "0");
          assert code == lco.code + [load];
          SpNetSnoc(lco.code, load);
      }
    }
  }

  /** Resolving a balanced operand to an rvalue keeps it balanced. */
  lemma RvalifyIfLvalBalanced(g: Gen, co: CodeObject)
    requires Balanced(co.code)
    ensures var r := RvalifyIfLval(g, co); r.res.Ok? ==> Balanced(r.res.value.code)
  {
    if co.lval {
      RvalifyBalanced(g, co);
    }
  }

  /** Binary-operator operand resolution keeps balance. */
  lemma LoadOperandBalanced(g: Gen, co: CodeObject)
    requires Balanced(co.code)
    ensures var r := LoadOperand(g, co); r.res.Ok? ==> Balanced(r.res.value.0)
  {
    if co.lval {
      if co.ste.Some? && co.ste.value.isLocal {
        if ScalarTy(co.ty) {
          var t := co.ty.value;
          SpNetSnoc(co.code, LoadFor(t, NewTemp(g, TempKind(t)).Extract().0, "fp", co.ste.value.addr));
        }
      } else {
        RvalifyBalanced(g, co);
      }
    }
  }

  /** Expression lowering keeps balance: a cast. */
  lemma CastBalanced(g: Gen, castTy: InnerType, expr: CodeObject)
    requires Balanced(expr.code)
    ensures var r := PostCast(g, castTy, expr); r.res.Ok? ==> Balanced(r.res.value.code)
  {
    RvalifyIfLvalBalanced(g, expr);
    var e := RvalifyIfLval(g, expr);
    if e.res.Ok? && e.res.value.ty.Some? && castTy != e.res.value.ty.value && (castTy == INT || castTy == FLOAT) {
      var ev := e.res.value;
      var nt := NewTemp(e.gen, castTy).Extract().0;
      var conv := if castTy == INT then FmovI(Operand(ev.temp), nt) else ImovF(Operand(ev.temp), nt);
      assert PostCast(g, castTy, expr).res.value.code == ev.code + [conv];
      AppendQuiet(ev.code, [conv]);
    }
  }

  /** Materialising a variable's address does not move `sp`. */
  lemma AddrBalanced(g: Gen, lco: CodeObject)
    requires lco.ste.Some?
    ensures Balanced(AddrFromVariable(g, lco).0)
  {
    var il := AddrFromVariable(g, lco).0;
    assert il == [] + [il[0]];
    assert il[0].Addi? ==> il[0].dest != "sp" by {
      var t := IntTemp(g.intRegCount + 1);
      assert t[0] == 't' && "sp"[0] == 's';
    }
  }

  /** Appending instructions that leave `sp` alone keeps the net adjustment. */
  lemma {:induction false} AppendQuiet(a: seq<Instr>, t: seq<Instr>)
    requires forall k :: 0 <= k < |t| ==> SpDelta(t[k]) == 0
    ensures SpNet(a + t) == SpNet(a)
    decreases |t|
  {
    if t != [] {
      assert (a + t)[..|a + t| - 1] == a + t[..|t| - 1];
      AppendQuiet(a, t[..|t| - 1]);
    } else {
      assert a + t == a;
    }
  }

  /** Expression lowering keeps balance: a binary operation. */
  lemma BinaryOpBalanced(g: Gen, op: BinOp, left: CodeObject, right: CodeObject)
    requires Balanced(left.code) && Balanced(right.code)
    ensures var r := PostBinaryOp(g, op, left, right); r.res.Ok? ==> Balanced(r.res.value.code)
  {
    if left.ty == Some(PTR) {
      BinaryPtrBalanced(g, op, left, right);
    } else if (left.ty == Some(INT) || left.ty == Some(FLOAT)) && right.ty == left.ty {
      BinarySameBalanced(g, op, left, right);
    } else if left.ty == Some(INT) && right.ty.Some? {
      BinaryIntMixedBalanced(g, op, left, right);
    } else if left.ty == Some(FLOAT) && right.ty.Some? {
      BinaryFloatMixedBalanced(g, op, left, right);
    }
  }

  /** `BinaryOpBalanced` for operands of the same numeric type. */
  lemma BinarySameBalanced(g: Gen, op: BinOp, left: CodeObject, right: CodeObject)
    requires Balanced(left.code) && Balanced(right.code)
    requires (left.ty == Some(INT) || left.ty == Some(FLOAT)) && right.ty == left.ty
    ensures var r := PostBinaryOp(g, op, left, right); r.res.Ok? ==> Balanced(r.res.value.code)
  {
    var r := PostBinaryOp(g, op, left, right);
    var l := LoadOperand(g, left);
    LoadOperandBalanced(g, left);
    if l.res.Ok? {
      var rr := LoadOperand(l.gen, right);
      LoadOperandBalanced(l.gen, right);
      if rr.res.Ok? {
        var code := l.res.value.0 + rr.res.value.0;
        SpNetAppend(l.res.value.0, rr.res.value.0);
        var (lreg, rreg, g2) := (l.res.value.1, rr.res.value.1, rr.gen);
        var lt := left.ty.value;
        var nt := NewTemp(g2, lt).Extract().0;
        var inst := if lt == INT then IntOp(op, lreg, rreg, nt) else FloatOp(op, lreg, rreg, nt);
        assert r.res.value.code == code + [inst];
        SpNetSnoc(code, inst);
      }
    }
  }

  /** `BinaryOpBalanced` for an INT left operand and a right operand of another type. */
  lemma BinaryIntMixedBalanced(g: Gen, op: BinOp, left: CodeObject, right: CodeObject)
    requires Balanced(left.code) && Balanced(right.code)
    requires left.ty == Some(INT) && right.ty.Some? && right.ty != left.ty
    ensures var r := PostBinaryOp(g, op, left, right); r.res.Ok? ==> Balanced(r.res.value.code)
  {
    var r := PostBinaryOp(g, op, left, right);
    var l := LoadOperand(g, left);
    LoadOperandBalanced(g, left);
    if l.res.Ok? {
      var rr := LoadOperand(l.gen, right);
      LoadOperandBalanced(l.gen, right);
      if rr.res.Ok? {
        var code := l.res.value.0 + rr.res.value.0;
        SpNetAppend(l.res.value.0, rr.res.value.0);
        var (lreg, rreg, g2) := (l.res.value.1, rr.res.value.1, rr.gen);
        var (nt, g3) := NewTemp(g2, FLOAT).Extract();
        var src := NewTemp(g3, FLOAT).Extract().0;
        var mov := ImovF(lreg, src);
        var inst := FloatOp(op, src, rreg, nt);
        assert r.res.value.code == code + [mov, inst];
        AppendQuiet(code, [mov, inst]);
      }
    }
  }

  /** `BinaryOpBalanced` for a FLOAT left operand and a right operand of another type. */
  lemma BinaryFloatMixedBalanced(g: Gen, op: BinOp, left: CodeObject, right: CodeObject)
    requires Balanced(left.code) && Balanced(right.code)
    requires left.ty == Some(FLOAT) && right.ty.Some? && right.ty != left.ty
    ensures var r := PostBinaryOp(g, op, left, right); r.res.Ok? ==> Balanced(r.res.value.code)
  {
    var r := PostBinaryOp(g, op, left, right);
    var l := LoadOperand(g, left);
    LoadOperandBalanced(g, left);
    if l.res.Ok? {
      var rr := LoadOperand(l.gen, right);
      LoadOperandBalanced(l.gen, right);
      if rr.res.Ok? {
        var code := l.res.value.0 + rr.res.value.0;
        SpNetAppend(l.res.value.0, rr.res.value.0);
        var (lreg, rreg, g2) := (l.res.value.1, rr.res.value.1, rr.gen);
        var (nt, g3) := NewTemp(g2, FLOAT).Extract();
        var src := NewTemp(g3, FLOAT).Extract().0;
        var mov := ImovF(rreg, src);
        var inst := FloatOp(op, lreg, src, nt);
        assert r.res.value.code == code + [mov, inst];
        AppendQuiet(code, [mov, inst]);
      }
    }
  }

  /** `BinaryOpBalanced` for a pointer left operand. */
  lemma BinaryPtrBalanced(g: Gen, op: BinOp, left: CodeObject, right: CodeObject)
    requires Balanced(left.code) && Balanced(right.code)
    requires left.ty == Some(PTR)
    ensures var r := PostBinaryOp(g, op, left, right); r.res.Ok? ==> Balanced(r.res.value.code)
  {
    var r := PostBinaryOp(g, op, left, right);
    var l := LoadOperand(g, left);
    LoadOperandBalanced(g, left);
    if l.res.Ok? {
      var rr := LoadOperand(l.gen, right);
      LoadOperandBalanced(l.gen, right);
      if rr.res.Ok? {
        var code := l.res.value.0 + rr.res.value.0;
        SpNetAppend(l.res.value.0, rr.res.value.0);
        var (lreg, rreg, g2) := (l.res.value.1, rr.res.value.1, rr.gen);
        var inst := IntOp(op, lreg, rreg, NewTemp(g2, INT).Extract().0);
        assert r.res.Ok? ==> r.res.value.code == code + [inst];
        SpNetSnoc(code, inst);
      }
    }
  }

  /** Expression lowering keeps balance: a negation. */
  lemma UnaryOpBalanced(g: Gen, op: UnOp, expr: CodeObject)
    requires Balanced(expr.code)
    ensures var r := PostUnaryOp(g, op, expr); r.res.Ok? ==> Balanced(r.res.value.code)
  {
    var r := PostUnaryOp(g, op, expr);
    if r.res.Ok? {
      var (il, g1) := if expr.ste.Some? then AddrFromVariable(g, expr) else ([], g);
      if expr.ste.Some? {
        AddrBalanced(g, expr);
      }
      var code := expr.code + il;
      SpNetAppend(expr.code, il);
      var t := expr.ty.value;
      var (code2, reg, g2) :=
        if expr.lval then
          var (nt, g') := NewTemp(g1, t).Extract();
          (code + [LoadFor(t, nt, Operand(expr.temp), "0")], nt, g')
        else (code, Operand(expr.temp), g1);
      if expr.lval {
        SpNetSnoc(code, LoadFor(t, NewTemp(g1, t).Extract().0, Operand(expr.temp), "0"));
      }
      var d := NewTemp(g2, t).Extract().0;
      var inst := if t == INT then Neg(reg, d) else FNeg(reg, d);
      assert r.res.value.code == code2 + [inst];
      SpNetSnoc(code2, inst);
    }
  }

  /** Statement lowering keeps balance: an assignment. */
  lemma AssignBalanced(g: Gen, left: CodeObject, right: CodeObject)
    requires Balanced(left.code) && Balanced(right.code)
    ensures var r := PostAssign(g, left, right); r.res.Ok? ==> Balanced(r.res.value.code)
  {
    if left.lval {
      if left.ste.Some? && !left.ste.value.isLocal {
        var (il, g1) := AddrFromVariable(g, left);
        AddrBalanced(g, left);
        SpNetAppend(left.code, il);
        AssignTailBalanced(g, g1, left, right, left.code + il);
      } else {
        AssignTailBalanced(g, g, left, right, left.code);
      }
    }
  }

  /** The part of `AssignBalanced` after the target's code is fixed. */
  lemma AssignTailBalanced(g: Gen, g1: Gen, left: CodeObject, right: CodeObject, lcode: seq<Instr>)
    requires left.lval && Balanced(lcode) && Balanced(right.code)
    requires left.ste.Some? && !left.ste.value.isLocal ==>
               lcode == left.code + AddrFromVariable(g, left).0 && g1 == AddrFromVariable(g, left).1
    requires !(left.ste.Some? && !left.ste.value.isLocal) ==> lcode == left.code && g1 == g
    ensures var r := PostAssign(g, left, right); r.res.Ok? ==> Balanced(r.res.value.code)
  {
    var r := PostAssign(g, left, right);
    var rv := RvalifyIfLval(g1, right);
    RvalifyIfLvalBalanced(g1, right);
    if rv.res.Ok? && r.res.Ok? {
      var code := lcode + rv.res.value.code;
      SpNetAppend(lcode, rv.res.value.code);
      var v := rv.res.value;
      var value := Operand(v.temp);
      var rt := v.ty.value;
      var tail: seq<Instr>;
      match left.ste {
        case Some(sym) =>
          var lt := left.ty.value;
          if left.ty == Some(INT) || left.ty == Some(FLOAT) {
            if rt == lt {
              tail := [StoreFor(lt, value, "fp", sym.addr)];
            } else {
              var nt := NewTemp(rv.gen, lt).Extract().0;
              var conv := if lt == INT then FmovI(value, nt) else ImovF(value, nt);
              tail := [conv, StoreFor(lt, nt, "fp", sym.addr)];
            }
          } else {
            tail := [StoreFor(rt, value, "fp", sym.addr)];
          }
        case None =>
          tail := [StoreFor(rt, value, Operand(left.temp), "0")];
      }
      assert r.res.value.code == code + tail;
      AppendQuiet(code, tail);
    }
  }

  /** Expression lowering keeps balance: dereference, address-of, malloc and free. */
  lemma PointerOpsBalanced(g: Gen, ty: InnerType, expr: CodeObject)
    requires Balanced(expr.code)
    ensures var r := PostPtrDeref(g, ty, expr); r.res.Ok? ==> Balanced(r.res.value.code)
    ensures Balanced(PostAddrOf(g, ty, expr).0.code)
    ensures var r := PostMalloc(g, ty, expr); r.res.Ok? ==> Balanced(r.res.value.code)
    ensures var r := PostFree(g, expr); r.res.Ok? ==> Balanced(r.res.value.code)
  {
    RvalifyIfLvalBalanced(g, expr);
    var e := RvalifyIfLval(g, expr);
    if e.res.Ok? {
      var ev := e.res.value;
      SpNetSnoc(ev.code, Malloc(Operand(ev.temp), NewTemp(e.gen, INT).Extract().0));
      SpNetSnoc(ev.code, Free(Operand(ev.temp)));
    }
    if expr.ste.Some? {
      AddrBalanced(g, expr);
      SpNetAppend(AddrFromVariable(g, expr).0, expr.code);
    }
  }

  /** The statements of a list, each balanced, give a balanced list. */
  lemma {:induction false} ConcatBalanced(cos: seq<CodeObject>)
    requires forall i :: 0 <= i < |cos| ==> Balanced(cos[i].code)
    ensures Balanced(ConcatCode(cos))
  {
    if cos != [] {
      ConcatBalanced(cos[..|cos| - 1]);
      SpNetAppend(ConcatCode(cos[..|cos| - 1]), cos[|cos| - 1].code);
    }
  }

  /** No instruction of `code` is an `addi sp` adjustment. */
  predicate Quiet(code: seq<Instr>)
  {
    forall k :: 0 <= k < |code| ==> SpDelta(code[k]) == 0
  }

  /** Statement lowering keeps balance: `read`. */
  lemma ReadBalanced(g: Gen, ty: InnerType, target: CodeObject)
    ensures var r := PostRead(g, ty, target); r.res.Ok? ==> Balanced(r.res.value.code)
  {
    var r := PostRead(g, ty, target);
    if r.res.Ok? {
      var g1 := NewTemp(g, ty).gen;
      var code := r.res.value.code;
      if !target.ste.value.isLocal {
        var il := AddrFromVariable(g1, target).0;
        assert il[0].La?;
        assert Quiet(code);
      }
      assert Quiet(code);
      AppendQuiet([], code);
      assert [] + code == code;
    }
  }

  /** Statement lowering keeps balance: `write`. */
  lemma WriteBalanced(g: Gen, writeTy: Option<InnerType>, expr: CodeObject)
    requires Balanced(expr.code)
    ensures var r := PostWrite(g, writeTy, expr); r.res.Ok? ==> Balanced(r.res.value.code)
  {
    var r := PostWrite(g, writeTy, expr);
    if r.res.Ok? {
      if writeTy == Some(STRING) {
        var il := AddrFromVariable(g, expr).0;
        AddrBalanced(g, expr);
        AppendQuiet(il, [PutS(Operand(Dest(Last(il))))]);
      } else {
        var e := RvalifyIfLval(g, expr);
        RvalifyIfLvalBalanced(g, expr);
        var tail := r.res.value.code[|e.res.value.code|..];
        assert r.res.value.code == e.res.value.code + tail;
        AppendQuiet(e.res.value.code, tail);
      }
    }
  }

  /** A comparison's left operand resolution keeps balance. */
  lemma CondLeftBalanced(g: Gen, left: CodeObject)
    requires Balanced(left.code)
    ensures var r := CondLeft(g, left); r.res.Ok? ==> Balanced(r.res.value.0)
  {
    var r := CondLeft(g, left);
    var lcode := left.code;
    if left.ste.Some? && !left.ste.value.isLocal {
      var il := AddrFromVariable(g, left).0;
      AddrBalanced(g, left);
      SpNetAppend(left.code, il);
      lcode := left.code + il;
    }
    if r.res.Ok? {
      var tail := r.res.value.0[|lcode|..];
      assert r.res.value.0 == lcode + tail;
      AppendQuiet(lcode, tail);
    }
  }

  /** A comparison's right operand resolution keeps balance. */
  lemma CondRightBalanced(g: Gen, right: CodeObject)
    requires Balanced(right.code)
    ensures var r := CondRight(g, right); r.res.Ok? ==> Balanced(r.res.value.0)
  {
    var r := CondRight(g, right);
    var rcode := right.code;
    if right.ste.Some? {
      var il := AddrFromVariable(g, right).0;
      AddrBalanced(g, right);
      SpNetAppend(right.code, il);
      rcode := right.code + il;
    }
    if r.res.Ok? {
      var tail := r.res.value.0[|rcode|..];
      assert r.res.value.0 == rcode + tail;
      AppendQuiet(rcode, tail);
    }
  }

  /** Statement lowering keeps balance: a comparison. */
  lemma CondBalanced(g: Gen, op: CondOp, left: CodeObject, right: CodeObject)
    requires Balanced(left.code) && Balanced(right.code)
    ensures var r := PostCond(g, op, left, right); r.res.Ok? ==> Balanced(r.res.value.code)
  {
    var r := PostCond(g, op, left, right);
    var l := CondLeft(g, left);
    CondLeftBalanced(g, left);
    if l.res.Ok? {
      var rr := CondRight(l.gen, right);
      CondRightBalanced(l.gen, right);
      if rr.res.Ok? && r.res.Ok? {
        var code := l.res.value.0 + rr.res.value.0;
        SpNetAppend(l.res.value.0, rr.res.value.0);
        var tail := r.res.value.code[|code|..];
        assert r.res.value.code == code + tail;
        AppendQuiet(code, tail);
      }
    }
  }

  /** Statement lowering keeps balance: `if`. */
  lemma IfBalanced(g: Gen, cond: CodeObject, thenList: CodeObject, elseList: CodeObject)
    requires Balanced(cond.code) && Balanced(thenList.code) && Balanced(elseList.code)
    ensures var r := PostIf(g, cond, thenList, elseList); r.res.Ok? ==> Balanced(r.res.value.code)
  {
    if cond.code != [] {
      var (elseL, g1) := NewElseLabel(g);
      var (outL, g2) := NewOutLabel(g1);
      var hasElse := elseList.code != [];
      var branch := Patched(cond.code, if hasElse then elseL else outL);
      PatchedBalanced(cond.code, if hasElse then elseL else outL);
      var jumps: seq<Instr> := if hasElse then [J(outL), Label(elseL)] else [];
      AppendQuiet(thenList.code, jumps);
      SpNetAppend(branch, thenList.code + jumps);
      SpNetAppend(branch + (thenList.code + jumps), elseList.code);
      AppendQuiet(branch + (thenList.code + jumps) + elseList.code, [Label(outL)]);
    }
  }

  /** Statement lowering keeps balance: `while`. */
  lemma WhileBalanced(g: Gen, cond: CodeObject, body: CodeObject)
    requires Balanced(cond.code) && Balanced(body.code)
    ensures var r := PostWhile(g, cond, body); r.res.Ok? ==> Balanced(r.res.value.code)
  {
    if cond.code != [] {
      var (loopL, g1) := NewLoopLabel(g);
      var (outL, g2) := NewOutLabel(g1);
      var branch := Patched(cond.code, outL);
      PatchedBalanced(cond.code, outL);
      SpNetAppend([Label(loopL)], branch);
      SpNetSingle(Label(loopL));
      SpNetAppend([Label(loopL)] + branch, body.code);
      AppendQuiet([Label(loopL)] + branch + body.code, [J(loopL), Label(outL)]);
    }
  }

  /** Statement lowering keeps balance: `return`. */
  lemma ReturnBalanced(g: Gen, funcTy: InnerType, retExpr: Option<CodeObject>)
    requires retExpr.Some? ==> Balanced(retExpr.value.code)
    ensures var r := PostReturn(g, funcTy, retExpr); r.res.Ok? ==> Balanced(r.res.value.code)
  {
    var r := PostReturn(g, funcTy, retExpr);
    if r.res.Ok? && funcTy != VOID {
      var e := RvalifyIfLval(g, retExpr.value);
      RvalifyIfLvalBalanced(g, retExpr.value);
      var tail := r.res.value.code[|e.res.value.code|..];
      assert r.res.value.code == e.res.value.code + tail;
      AppendQuiet(e.res.value.code, tail);
    } else if r.res.Ok? {
      assert r.res.value.code == [];
    }
  }

  /** One argument push moves `sp` down by exactly 4. */
  lemma PushArgMoves(g: Gen, arg: CodeObject)
    requires Balanced(arg.code)
    ensures var r := PushArg(g, arg); r.res.Ok? ==> SpNet(r.res.value) == -4
  {
    var r := PushArg(g, arg);
    if r.res.Ok? {
      var e := RvalifyIfLval(g, arg);
      RvalifyIfLvalBalanced(g, arg);
      var code := r.res.value;
      var store := code[|e.res.value.code|..|code| - 1];
      assert code == e.res.value.code + store + [MoveSp("-4")];
      AppendQuiet(e.res.value.code, store);
      SpNetAppend(e.res.value.code + store, [MoveSp("-4")]);
      SpNetSingle(MoveSp("-4"));
      MoveSpFour();
    }
  }

  /** Pushing `n` balanced arguments moves `sp` down by exactly `4n`. */
  lemma {:induction false} PushArgsMove(g: Gen, args: seq<CodeObject>)
    requires forall i :: 0 <= i < |args| ==> Balanced(args[i].code)
    ensures var r := PushArgs(g, args); r.res.Ok? ==> SpNet(r.res.value) == -4 * |args|
    decreases |args|
  {
    if args != [] {
      var pre := args[..|args| - 1];
      PushArgsMove(g, pre);
      var p := PushArgs(g, pre);
      if p.res.Ok? {
        PushArgMoves(p.gen, args[|args| - 1]);
        var q := PushArg(p.gen, args[|args| - 1]);
        if q.res.Ok? {
          SpNetAppend(p.res.value, q.res.value);
        }
      }
    }
  }

  /**
   * The call linkage pushes and pops the return slot and `ra` symmetrically:
   * the stack-pointer offset after each prefix that ends before a memory
   * access or the jump, and after the whole linkage.
   */
  lemma LinkageOffsets(name: string)
    ensures var l := Linkage(name);
      SpNet(l[..1]) == -4 && SpNet(l[..3]) == -8 && SpNet(l[..5]) == -4 && SpNet(l) == 0
  {
    var l := Linkage(name);
    MoveSpFour();
    assert l[..1] == [] + [l[0]];
    assert l[..2] == l[..1] + [l[1]];
    assert l[..3] == l[..2] + [l[2]];
    assert l[..4] == l[..3] + [l[3]];
    assert l[..5] == l[..4] + [l[4]];
    assert l[..6] == l[..5] + [l[5]];
    assert l == l[..6] + [l[6]];
    SpNetAppend([], [l[0]]);
    SpNetAppend(l[..1], [l[1]]);
    SpNetAppend(l[..2], [l[2]]);
    SpNetAppend(l[..3], [l[3]]);
    SpNetAppend(l[..4], [l[4]]);
    SpNetAppend(l[..5], [l[5]]);
    SpNetAppend(l[..6], [l[6]]);
    SpNetSingle(l[0]);
    SpNetSingle(l[1]);
    SpNetSingle(l[2]);
    SpNetSingle(l[3]);
    SpNetSingle(l[4]);
    SpNetSingle(l[5]);
    SpNetSingle(l[6]);
  }

  /** A call whose arguments are balanced is balanced: the final `addi sp, 4*nargs` undoes the pushes. */
  lemma CallBalanced(g: Gen, ty: InnerType, name: string, argTys: seq<Option<InnerType>>, args: seq<CodeObject>,
                     sameType: (Option<InnerType>, Option<InnerType>) -> bool)
    requires forall i :: 0 <= i < |args| ==> Balanced(args[i].code)
    ensures var r := PostCall(g, ty, name, argTys, args, sameType); r.res.Ok? ==> Balanced(r.res.value.code)
  {
    var r := PostCall(g, ty, name, argTys, args, sameType);
    if r.res.Ok? {
      var p := PushArgs(g, args);
      PushArgsMove(g, args);
      LinkageOffsets(name);
      var popArgs := MoveSp(NatStr(4 * |args|));
      MoveSpDelta(4 * |args|);
      var head := p.res.value + Linkage(name);
      SpNetAppend(p.res.value, Linkage(name));
      if IsScalar(ty) {
        var load := LoadFor(ty, NewTemp(p.gen, ty).Extract().0, "sp", "0");
        assert r.res.value.code == head + [load] + [popArgs];
        SpNetSnoc(head, load);
        SpNetSnoc(head + [load], popArgs);
      } else {
        assert r.res.value.code == head + [popArgs];
        SpNetSnoc(head, popArgs);
      }
    }
  }

  /**
   * Every expression and statement lowers to code whose `addi sp`
   * adjustments sum to zero, whatever state the generator is in.
   */
  lemma {:induction false} LowerBalanced(g: Gen, n: Node, sameType: (Option<InnerType>, Option<InnerType>) -> bool)
    requires FunctionFree(n)
    ensures var r := Lower(g, n, sameType); r.res.Ok? ==> Balanced(r.res.value.code)
    decreases n, 2
  {
    match n
    case VarRef(_, _) =>
    case IntLit(_) =>
    case FloatLit(_) =>
    case BinaryOp(_, _, _, _) => TwoChildrenBalanced(g, n, sameType);
    case Assign(_, _) => TwoChildrenBalanced(g, n, sameType);
    case Cond(_, _, _) => TwoChildrenBalanced(g, n, sameType);
    case If(_, _, _) => BlockBalanced(g, n, sameType);
    case While(_, _) => BlockBalanced(g, n, sameType);
    case StatementList(_) => BlockBalanced(g, n, sameType);
    case Call(_, _, _) => BlockBalanced(g, n, sameType);
    case PtrDeref(_, _) => MemoryBalanced(g, n, sameType);
    case AddrOf(_, _) => MemoryBalanced(g, n, sameType);
    case MallocCall(_) => MemoryBalanced(g, n, sameType);
    case FreeCall(_) => MemoryBalanced(g, n, sameType);
    case Cast(_) => OneChildBalanced(g, n, sameType);
    case UnaryOp(_, _, _) => OneChildBalanced(g, n, sameType);
    case Read(_, _) => OneChildBalanced(g, n, sameType);
    case Write(_) => OneChildBalanced(g, n, sameType);
    case Return(_, _) => OneChildBalanced(g, n, sameType);
  }

  /** `LowerBalanced` for casts, negation, read, write and return. */
  lemma {:induction false} OneChildBalanced(g: Gen, n: Node, sameType: (Option<InnerType>, Option<InnerType>) -> bool)
    requires n.Cast? || n.UnaryOp? || n.Read? || n.Write? || n.Return?
    requires FunctionFree(n)
    ensures var r := Lower(g, n, sameType); r.res.Ok? ==> Balanced(r.res.value.code)
    decreases n, 1
  {
    if n.Read? {
      var t := Lower(g, n.target, sameType);
      if t.res.Ok? { ReadBalanced(t.gen, n.ty, t.res.value); }
    } else if n.Return? && n.retExpr.None? {
      ReturnBalanced(g, n.funcType, None);
    } else {
      var child := if n.Cast? then n.cast.expr else if n.Return? then n.retExpr.value else n.expr;
      LowerBalanced(g, child, sameType);
      var e := Lower(g, child, sameType);
      if e.res.Ok? {
        if n.Cast? {
          CastBalanced(e.gen, n.cast.ty, e.res.value);
        } else if n.UnaryOp? {
          UnaryOpBalanced(e.gen, n.uop, e.res.value);
        } else if n.Write? {
          WriteBalanced(e.gen, NodeType(n.expr), e.res.value);
        } else {
          ReturnBalanced(e.gen, n.funcType, Some(e.res.value));
        }
      }
    }
  }

  /** `LowerBalanced` for binary operations, assignments and comparisons. */
  lemma {:induction false} TwoChildrenBalanced(g: Gen, n: Node, sameType: (Option<InnerType>, Option<InnerType>) -> bool)
    requires n.BinaryOp? || n.Assign? || n.Cond?
    requires FunctionFree(n)
    ensures var r := Lower(g, n, sameType); r.res.Ok? ==> Balanced(r.res.value.code)
    decreases n, 1
  {
    LowerBalanced(g, n.left, sameType);
    var l := Lower(g, n.left, sameType);
    if l.res.Ok? {
      LowerBalanced(l.gen, n.right, sameType);
      var r := Lower(l.gen, n.right, sameType);
      if r.res.Ok? {
        if n.BinaryOp? {
          BinaryOpBalanced(r.gen, n.op, l.res.value, r.res.value);
        } else if n.Assign? {
          AssignBalanced(r.gen, l.res.value, r.res.value);
        } else {
          CondBalanced(r.gen, Reversed(n.cop), l.res.value, r.res.value);
        }
      }
    }
  }

  /** `LowerBalanced` for `if`, `while`, statement lists and calls. */
  lemma {:induction false} BlockBalanced(g: Gen, n: Node, sameType: (Option<InnerType>, Option<InnerType>) -> bool)
    requires n.If? || n.While? || n.StatementList? || n.Call?
    requires FunctionFree(n)
    ensures var r := Lower(g, n, sameType); r.res.Ok? ==> Balanced(r.res.value.code)
    decreases n, 1
  {
    if n.StatementList? {
      LowerAllBalanced(g, n.stmts, sameType);
      var cos := LowerAll(g, n.stmts, sameType);
      if cos.res.Ok? { ConcatBalanced(cos.res.value); }
    } else if n.Call? {
      LowerAllBalanced(g, n.args, sameType);
      var cos := LowerAll(g, n.args, sameType);
      if cos.res.Ok? { CallBalanced(cos.gen, n.ty, n.name, ArgTypes(n.args), cos.res.value, sameType); }
    } else {
      LowerBalanced(g, n.cond, sameType);
      var c := Lower(g, n.cond, sameType);
      if c.res.Ok? {
        if n.While? {
          LowerBalanced(c.gen, n.body, sameType);
          var b := Lower(c.gen, n.body, sameType);
          if b.res.Ok? { WhileBalanced(b.gen, c.res.value, b.res.value); }
        } else {
          LowerBalanced(c.gen, n.thenList, sameType);
          var t := Lower(c.gen, n.thenList, sameType);
          if t.res.Ok? {
            LowerBalanced(t.gen, n.elseList, sameType);
            var e := Lower(t.gen, n.elseList, sameType);
            if e.res.Ok? { IfBalanced(e.gen, c.res.value, t.res.value, e.res.value); }
          }
        }
      }
    }
  }

  /** `LowerBalanced` for dereference, address-of, malloc and free. */
  lemma {:induction false} MemoryBalanced(g: Gen, n: Node, sameType: (Option<InnerType>, Option<InnerType>) -> bool)
    requires n.PtrDeref? || n.AddrOf? || n.MallocCall? || n.FreeCall?
    requires FunctionFree(n)
    ensures var r := Lower(g, n, sameType); r.res.Ok? ==> Balanced(r.res.value.code)
    decreases n, 1
  {
    LowerBalanced(g, n.expr, sameType);
    var e := Lower(g, n.expr, sameType);
    if e.res.Ok? {
      var ty := if n.PtrDeref? || n.AddrOf? then n.ty else INFER;
      PointerOpsBalanced(e.gen, ty, e.res.value);
    }
  }

  /** Lowering function-free siblings gives balanced code for each of them. */
  lemma {:induction false} LowerAllBalanced(g: Gen, ns: seq<Node>, sameType: (Option<InnerType>, Option<InnerType>) -> bool)
    requires forall i :: 0 <= i < |ns| ==> FunctionFree(ns[i])
    ensures var r := LowerAll(g, ns, sameType);
      r.res.Ok? ==> forall i :: 0 <= i < |r.res.value| ==> Balanced(r.res.value[i].code)
    decreases ns, 0
  {
    if ns != [] {
      var pre := LowerAll(g, ns[..|ns| - 1], sameType);
      LowerAllBalanced(g, ns[..|ns| - 1], sameType);
      if pre.res.Ok? {
        LowerBalanced(pre.gen, ns[|ns| - 1], sameType);
      }
    }
  }

  /** Saving `n` temporaries moves `sp` down by `4n`. */
  lemma {:induction false} SaveMoves(kind: InnerType, n: nat)
    ensures SpNet(Save(kind, n)) == -4 * n
  {
    if n > 0 {
      SaveMoves(kind, n - 1);
      var store := StoreFor(kind, Reg(kind, n), "sp", "0");
      AppendQuiet(Save(kind, n - 1), [store]);
      SpNetAppend(Save(kind, n - 1) + [store], [MoveSp("-4")]);
      SpNetSingle(MoveSp("-4"));
      MoveSpFour();
      assert Save(kind, n) == Save(kind, n - 1) + [store] + [MoveSp("-4")];
    }
  }

  /** Restoring temporaries `hi` down to `lo + 1` moves `sp` up by `4(hi - lo)`. */
  lemma {:induction false} RestoreMoves(kind: InnerType, hi: nat, lo: nat)
    requires lo <= hi
    ensures SpNet(Restore(kind, hi, lo)) == 4 * (hi - lo)
    decreases hi - lo
  {
    if lo < hi {
      RestoreMoves(kind, hi, lo + 1);
      var rest := Restore(kind, hi, lo + 1);
      SpNetAppend(rest, [MoveSp("4")]);
      SpNetSingle(MoveSp("4"));
      MoveSpFour();
      AppendQuiet(rest + [MoveSp("4")], [LoadFor(kind, Reg(kind, lo + 1), "sp", "0")]);
      assert Restore(kind, hi, lo) == rest + [MoveSp("4")] + [LoadFor(kind, Reg(kind, lo + 1), "sp", "0")];
    }
  }

  /** The prologue reserves the saved-`fp` word and the locals. */
  lemma PrologueMoves(name: string, numLocals: nat)
    ensures SpNet(Prologue(name, numLocals)) == -4 - 4 * numLocals
  {
    var head := [Label(FunctionLabel(name)), Sw("fp", "sp", "0"), Mv("sp", "fp")];
    var locals := MoveSp("-" + NatStr(numLocals * 4));
    assert Prologue(name, numLocals) == head + [MoveSp("-4")] + [locals];
    MoveSpDelta(numLocals * 4);
    AppendQuiet([], head);
    assert [] + head == head;
    SpNetAppend(head, [MoveSp("-4")]);
    SpNetAppend(head + [MoveSp("-4")], [locals]);
    SpNetSingle(MoveSp("-4"));
    SpNetSingle(locals);
  }

  /**
   * A function's frame: the prologue saves `fp`, sets `fp` to the incoming
   * `sp`, and reserves one word plus the locals; the register saves and
   * restores cancel out around a balanced body, so the `addi sp`
   * adjustments of the whole function sum to `-(4 + 4*numLocals)`: just
   * before the epilogue's `mv fp, sp` (not an adjustment) puts `sp` back to
   * its incoming value, it sits exactly the amount the prologue reserved
   * below it.
   */
  lemma FunctionFrame(g: Gen, name: string, numLocals: nat, body: CodeObject)
    requires Balanced(body.code)
    ensures SpNet(PostFunction(g, name, numLocals, body).code) == -4 - 4 * numLocals
  {
    var k := g.intRegCount;
    var m := g.floatRegCount;
    var code := Prologue(name, numLocals) + Save(INT, k) + Save(FLOAT, m) + body.code
         + [Label(FunctionOutLabel(g))] + Restore(FLOAT, m, 0) + Restore(INT, k, 0) + Epilogue;
    assert PostFunction(g, name, numLocals, body).code == code;
    FrameEnds(name, numLocals, FunctionOutLabel(g));
    FrameSaves(k, m);
    FrameSum(Prologue(name, numLocals), Save(INT, k), Save(FLOAT, m), body.code,
             [Label(FunctionOutLabel(g))], Restore(FLOAT, m, 0), Restore(INT, k, 0), Epilogue, numLocals, k, m);
  }

  /** The fixed parts of a function's code: the prologue reserves the frame; the return label and the epilogue make no `addi sp` adjustment. */
  lemma FrameEnds(name: string, numLocals: nat, outL: string)
    ensures SpNet(Prologue(name, numLocals)) == -4 - 4 * numLocals
    ensures SpNet([Label(outL)]) == 0 && SpNet(Epilogue) == 0
  {
    PrologueMoves(name, numLocals);
    QuietBalanced([Label(outL)]);
    QuietBalanced(Epilogue);
  }

  /** The register saves move `sp` down by four per register and the restores move it back up. */
  lemma FrameSaves(k: nat, m: nat)
    ensures SpNet(Save(INT, k)) == -4 * k && SpNet(Save(FLOAT, m)) == -4 * m
    ensures SpNet(Restore(FLOAT, m, 0)) == 4 * m && SpNet(Restore(INT, k, 0)) == 4 * k
  {
    SaveMoves(INT, k);
    SaveMoves(FLOAT, m);
    RestoreMoves(FLOAT, m, 0);
    RestoreMoves(INT, k, 0);
  }

  /** `FunctionFrame` on the eight parts of a function's code, given what each part does to `sp`. */
  lemma FrameSum(p1: seq<Instr>, p2: seq<Instr>, p3: seq<Instr>, p4: seq<Instr>,
                 p5: seq<Instr>, p6: seq<Instr>, p7: seq<Instr>, p8: seq<Instr>, numLocals: nat, k: nat, m: nat)
    requires SpNet(p1) == -4 - 4 * numLocals && SpNet(p2) == -4 * k && SpNet(p3) == -4 * m && SpNet(p4) == 0
    requires SpNet(p5) == 0 && SpNet(p6) == 4 * m && SpNet(p7) == 4 * k && SpNet(p8) == 0
    ensures SpNet(p1 + p2 + p3 + p4 + p5 + p6 + p7 + p8) == -4 - 4 * numLocals
  {
    SpNetOfEight(p1, p2, p3, p4, p5, p6, p7, p8);
  }

  /** `SpNetAppend` over an eight-part concatenation. */
  lemma SpNetOfEight(p1: seq<Instr>, p2: seq<Instr>, p3: seq<Instr>, p4: seq<Instr>,
                     p5: seq<Instr>, p6: seq<Instr>, p7: seq<Instr>, p8: seq<Instr>)
    ensures SpNet(p1 + p2 + p3 + p4 + p5 + p6 + p7 + p8)
         == SpNet(p1) + SpNet(p2) + SpNet(p3) + SpNet(p4) + SpNet(p5) + SpNet(p6) + SpNet(p7) + SpNet(p8)
  {
    SpNetAppend(p1, p2);
    SpNetAppend(p1 + p2, p3);
    SpNetAppend(p1 + p2 + p3, p4);
    SpNetAppend(p1 + p2 + p3 + p4, p5);
    SpNetAppend(p1 + p2 + p3 + p4 + p5, p6);
    SpNetAppend(p1 + p2 + p3 + p4 + p5 + p6, p7);
    SpNetAppend(p1 + p2 + p3 + p4 + p5 + p6 + p7, p8);
  }

  /** Code with no stack-pointer instruction is balanced. */
  lemma QuietBalanced(code: seq<Instr>)
    requires Quiet(code)
    ensures Balanced(code)
  {
    AppendQuiet([], code);
    assert [] + code == code;
  }

  /** A lowered function whose body defines no further function has the frame of `FunctionFrame`. */
  lemma LowerFunctionFrame(g: Gen, name: string, numLocals: nat, body: Node,
                           sameType: (Option<InnerType>, Option<InnerType>) -> bool)
    requires FunctionFree(body)
    ensures var r := Lower(g, Function(name, numLocals, body), sameType);
      r.res.Ok? ==> SpNet(r.res.value.code) == -4 - 4 * numLocals
  {
    var r := Lower(g, Function(name, numLocals, body), sameType);
    if r.res.Ok? {
      var g1 := Preprocess(g, name);
      var b := Lower(g1, body, sameType);
      assert b.res.Ok? && r.res.value == PostFunction(b.gen, name, numLocals, b.res.value);
      LowerBalanced(g1, body, sameType);
      FunctionFrame(b.gen, name, numLocals, b.res.value);
    }
  }
}
