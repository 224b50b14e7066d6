/**
 * What the statement lowering emits: the comparison a condition branches
 * on, the float comparisons, and the layout of `if` and `while` around the
 * patched branch.
 */
module ControlProps {
  import opened Wrappers
  import opened Scope
  import opened Instructions
  import opened CodeObjects
  import opened Alloc
  import opened Resolve
  import opened Ast
  import opened Expressions
  import opened Control
  import opened Freshness

  /**
   * Reading into an INT or FLOAT variable: `geti` (`getf` for FLOAT) into a
   * fresh register of the read's kind, then a store of that register to the
   * variable's frame slot for a local, or, for a global, the variable's
   * address loaded with `la` into another fresh register and a store at
   * offset 0 of it.
   */
  lemma ReadShape(g: Gen, ty: InnerType, target: CodeObject)
    requires target.ste.Some? && (ty == INT || ty == FLOAT)
    ensures var r := PostRead(g, ty, target);
      && var sym := target.ste.value;
      && var t := NewTemp(g, ty).Extract().0;
      && var g1 := NewTemp(g, ty).gen;
      && var get := if ty == INT then GetI(t) else GetF(t);
      && var a := IntTemp(g1.intRegCount + 1);
      && r.res.Ok? && t !in UsedTemps(g)
      && t == (if ty == INT then IntTemp(g1.intRegCount) else FloatTemp(g1.floatRegCount))
      && (sym.isLocal ==> r.res.value.code == [get, StoreFor(ty, t, "fp", sym.addr)])
      && (!sym.isLocal ==> r.res.value.code == [get, La(a, sym.addr), StoreFor(ty, t, a, "0")]
                           && a != t && a !in UsedTemps(g))
  {
    NewTempFresh(g, ty);
    if target.ste.value.isLocal {
      ReadLocalShape(g, ty, target);
    } else {
      ReadGlobalShape(g, ty, target);
      var g1 := NewTemp(g, ty).gen;
      LaterTempsFresh(g, g1, INT);
      TempNamesDistinct(g1.intRegCount + 1, g1.floatRegCount);
      TempNamesDistinct(g1.intRegCount + 1, g1.intRegCount);
    }
  }

  /** `ReadShape` for a local variable. */
  lemma ReadLocalShape(g: Gen, ty: InnerType, target: CodeObject)
    requires target.ste.Some? && target.ste.value.isLocal && (ty == INT || ty == FLOAT)
    ensures var r := PostRead(g, ty, target);
      && var t := NewTemp(g, ty).Extract().0;
      && r.res.Ok?
      && r.res.value.code == [if ty == INT then GetI(t) else GetF(t), StoreFor(ty, t, "fp", target.ste.value.addr)]
  {
  }

  /** `ReadShape` for a global variable. */
  lemma ReadGlobalShape(g: Gen, ty: InnerType, target: CodeObject)
    requires target.ste.Some? && !target.ste.value.isLocal && (ty == INT || ty == FLOAT)
    ensures var r := PostRead(g, ty, target);
      && var t := NewTemp(g, ty).Extract().0;
      && var a := IntTemp(NewTemp(g, ty).gen.intRegCount + 1);
      && r.res.Ok?
      && r.res.value.code == [if ty == INT then GetI(t) else GetF(t), La(a, target.ste.value.addr), StoreFor(ty, t, a, "0")]
  {
    var g1 := NewTemp(g, ty).gen;
    var a := IntTemp(g1.intRegCount + 1);
    var il := [La(a, target.ste.value.addr)];
    assert AddrFromVariable(g1, target).0 == il;
    assert Operand(Dest(Last(il))) == a;
  }

  /**
   * A write ends with the output call for its type: `puts` of the string
   * variable's freshly loaded address, or `puti` (INT and PTR) or `putf`
   * (FLOAT) of the register the resolved value is in, after that value's
   * code.
   */
  lemma WriteShape(g: Gen, writeTy: InnerType, expr: CodeObject)
    requires writeTy != STRING && expr.lval ==> ScalarTy(expr.ty)
    requires writeTy == STRING ==> expr.ste.Some?
    requires writeTy in {INT, PTR, FLOAT, STRING}
    ensures var r := PostWrite(g, Some(writeTy), expr);
      && r.res.Ok?
      && (writeTy == STRING ==>
            r.res.value.code == AddrFromVariable(g, expr).0 + [PutS(IntTemp(g.intRegCount + 1))])
      && (writeTy != STRING ==>
            && var e := RvalifyIfLval(g, expr).res.value;
            && r.res.value.code == e.code + [if writeTy == FLOAT then PutF(Operand(e.temp)) else PutI(Operand(e.temp))])
  {
  }

  /** Whether the comparison `op` holds between two integers. */
  predicate Holds(op: CondOp, a: int, b: int)
  {
    match op
    case EQ => a == b
    case NE => a != b
    case LT => a < b
    case LE => a <= b
    case GT => a > b
    case GE => a >= b
  }

  /** The operator a condition branches on holds exactly when the source comparison does not. */
  lemma ReversedNegates(op: CondOp, a: int, b: int)
    ensures Holds(Reversed(op), a, b) <==> !Holds(op, a, b)
  {
  }

  /** Reversing twice gives the original operator back. */
  lemma ReversedInvolutive(op: CondOp)
    ensures Reversed(Reversed(op)) == op
  {
  }

  /**
   * An INT comparison of a local variable with an rvalue: the variable is
   * loaded from its slot into a fresh register, the right operand's code
   * follows, and one integer branch on `op` between the loaded register and
   * the destination of the right operand's last instruction jumps to a
   * fresh placeholder label.
   */
  lemma CondIntShape(g: Gen, op: CondOp, sym: Sym, right: CodeObject)
    requires sym.isLocal && !right.lval && right.ste.None? && right.code != []
    ensures var r := PostCond(g, op, PostVar(sym, INT), right);
      && r.res.Ok?
      && var nt := IntTemp(g.intRegCount + 1);
      && var target := NewUnknownLabel(g.(intRegCount := g.intRegCount + 1)).0;
      && r.res.value.code == [Lw(nt, "fp", sym.addr)] + right.code
                             + [IntBranch(op, nt, Operand(Dest(Last(right.code))), target)]
      && nt !in UsedTemps(g)
  {
    NewTempFresh(g, INT);
    var g1 := g.(intRegCount := g.intRegCount + 1);
    var nt := IntTemp(g.intRegCount + 1);
    assert CondLeft(g, PostVar(sym, INT)) == Done(([Lw(nt, "fp", sym.addr)], nt), g1) by {
      assert [] + [Lw(nt, "fp", sym.addr)] == [Lw(nt, "fp", sym.addr)];
    }
    assert CondRight(g1, right) == Done((right.code, Operand(Dest(Last(right.code)))), g1);
  }

  /**
   * Any successful comparison: the resolved left operand's code, the right
   * operand's code, then the test on the two resolved registers against the
   * next placeholder label of the state before the comparison: one integer
   * branch on `op` for an INT left operand, the float compare sequence for a
   * FLOAT one.
   */
  lemma CondShape(g: Gen, op: CondOp, left: CodeObject, right: CodeObject)
    ensures var r := PostCond(g, op, left, right);
      r.res.Ok? ==>
        && var l := CondLeft(g, left);
        && l.res.Ok?
        && var rr := CondRight(l.gen, right);
        && rr.res.Ok?
        && var (target, g3) := NewUnknownLabel(rr.gen);
        && target == NewUnknownLabel(g).0
        && var (lcode, lreg) := l.res.value;
        && var (rcode, rreg) := rr.res.value;
        && (left.ty == Some(INT) ==>
              r.res.value.code == lcode + rcode + [IntBranch(op, lreg, rreg, target)] && r.gen == g3)
        && (left.ty == Some(FLOAT) ==>
              r.res.value.code == lcode + rcode + FloatCompare(g3, op, lreg, rreg, target).0
              && r.gen == FloatCompare(g3, op, lreg, rreg, target).1)
  {
  }

  /**
   * The left operand of a comparison that has no symbol is loaded from
   * offset 0 of its register even when it is an rvalue, so the value of an
   * arithmetic left operand is used as an address.
   */
  lemma CondLeftLoadsThroughRvalue(g: Gen, left: CodeObject)
    requires !left.lval && left.ste.None? && NumericTy(left.ty)
    ensures var r := CondLeft(g, left);
      && r.res.Ok?
      && var nt := r.res.value.1;
      && r.res.value.0 == left.code + [LoadFor(left.ty.value, nt, Operand(left.temp), "0")]
      && nt !in UsedTemps(g)
  {
    NewTempFresh(g, left.ty.value);
  }

  /**
   * A float EQ test is one `feq.s` whose destination is the placeholder
   * label: it is not a branch, so nothing is ever patched into it.
   */
  lemma FloatEqIsNotABranch(g: Gen, l: string, r: string, target: string)
    ensures var (code, g') := FloatCompare(g, EQ, l, r, target);
      && code == [Feq(l, r, target)] && g' == g
      && !IsBranch(code[0]) && Dest(code[0]) == Some(target)
      && Patched(code, "any") == code
  {
  }

  /**
   * A float LT, LE or GT test writes its result into one fresh register and
   * branches on a second fresh register that nothing has written.
   */
  lemma FloatBranchReadsUnwrittenRegister(g: Gen, op: CondOp, l: string, r: string, target: string)
    requires op == LT || op == LE || op == GT
    ensures var (code, g') := FloatCompare(g, op, l, r, target);
      && |code| == 2 && IsBranch(code[1]) && code[1].target == target && code[1].src2 == "x0"
      && Dest(code[0]) == Some(IntTemp(g.intRegCount + 1))
      && code[1].src1 == IntTemp(g.intRegCount + 2)
      && code[1].src1 != Dest(code[0]).value
      && code[1].src1 !in UsedTemps(g) && Dest(code[0]).value !in UsedTemps(g)
  {
    var a := IntTemp(g.intRegCount + 1);
    var b := IntTemp(g.intRegCount + 2);
    assert a != b && a !in UsedTemps(g) && b !in UsedTemps(g) by {
      TempNamesDistinct(g.intRegCount + 1, g.intRegCount + 2);
      NewTempFresh(g, INT);
      NewTempFresh(g.(intRegCount := g.intRegCount + 1), INT);
    }
    assert FloatCompare(g, op, l, r, target).0
      == [if op == LT then Flt(l, r, a) else Fle(l, r, a), if op == LE then Beq(b, "x0", target) else Bne(b, "x0", target)];
  }

  /** A float GE test compares with `flt.s` into a fresh register and branches when that register is zero. */
  lemma FloatGeBranchesOnTest(g: Gen, l: string, r: string, target: string)
    ensures var (code, g') := FloatCompare(g, GE, l, r, target);
      && var a := IntTemp(g.intRegCount + 1);
      && code == [Flt(l, r, a), Beq(a, "x0", target)] && a !in UsedTemps(g)
  {
    NewTempFresh(g, INT);
  }

  /** Patching leaves a condition whose last instruction is not a branch unchanged. */
  lemma PatchIgnoresNonBranch(cond: seq<Instr>, target: string)
    requires cond != [] && !IsBranch(cond[|cond| - 1])
    ensures Patched(cond, target) == cond
  {
    assert cond == cond[..|cond| - 1] + [cond[|cond| - 1]];
  }

  /**
   * The layout of `if`. With else code: the condition with its branch
   * re-targeted to the else label, the then code, a jump to the out label,
   * the else label, the else code and the out label. Without: the branch
   * goes to the out label, which directly follows the then code. The two
   * labels are distinct.
   */
  lemma IfLayout(g: Gen, cond: CodeObject, thenList: CodeObject, elseList: CodeObject)
    requires cond.code != []
    ensures var r := PostIf(g, cond, thenList, elseList);
      && var (elseL, g1) := NewElseLabel(g);
      && var outL := NewOutLabel(g1).0;
      && var c := cond.code;
      && var n := |c|;
      && var t := |thenList.code|;
      && var code := r.res.value.code;
      && r.res.Ok? && elseL != outL
      && code[..n - 1] == c[..n - 1]
      && code[n - 1] == Relabel(c[n - 1], if elseList.code != [] then elseL else outL)
      && code[n..n + t] == thenList.code
      && code[|code| - 1] == Label(outL)
      && (elseList.code != [] ==>
            && |code| == n + t + 3 + |elseList.code|
            && code[n + t] == J(outL) && code[n + t + 1] == Label(elseL)
            && code[n + t + 2..|code| - 1] == elseList.code)
      && (elseList.code == [] ==> |code| == n + t + 1)
  {
    LabelFamiliesDisjoint(g, NewElseLabel(g).1);
    if elseList.code != [] {
      IfElseLayout(g, cond, thenList, elseList);
    } else {
      IfThenLayout(g, cond, thenList, elseList);
    }
  }

  /** `IfLayout` with else code. */
  lemma IfElseLayout(g: Gen, cond: CodeObject, thenList: CodeObject, elseList: CodeObject)
    requires cond.code != [] && elseList.code != []
    ensures var r := PostIf(g, cond, thenList, elseList);
      && var (elseL, g1) := NewElseLabel(g);
      && var outL := NewOutLabel(g1).0;
      && var c := cond.code;
      && var n := |c|;
      && var t := |thenList.code|;
      && var code := r.res.value.code;
      && r.res.Ok?
      && code[..n - 1] == c[..n - 1]
      && code[n - 1] == Relabel(c[n - 1], elseL)
      && code[n..n + t] == thenList.code
      && code[|code| - 1] == Label(outL)
      && |code| == n + t + 3 + |elseList.code|
      && code[n + t] == J(outL) && code[n + t + 1] == Label(elseL)
      && code[n + t + 2..|code| - 1] == elseList.code
  {
    var (elseL, g1) := NewElseLabel(g);
    var outL := NewOutLabel(g1).0;
    var branch := Patched(cond.code, elseL);
    var code := PostIf(g, cond, thenList, elseList).res.value.code;
    var head := branch + thenList.code + [J(outL), Label(elseL)];
    assert code == head + elseList.code + [Label(outL)];
    assert code[..|head|] == head;
    assert code[|head|..|code| - 1] == elseList.code;
  }

  /** `IfLayout` without else code. */
  lemma IfThenLayout(g: Gen, cond: CodeObject, thenList: CodeObject, elseList: CodeObject)
    requires cond.code != [] && elseList.code == []
    ensures var r := PostIf(g, cond, thenList, elseList);
      && var outL := NewOutLabel(NewElseLabel(g).1).0;
      && var c := cond.code;
      && var n := |c|;
      && var t := |thenList.code|;
      && var code := r.res.value.code;
      && r.res.Ok?
      && code[..n - 1] == c[..n - 1]
      && code[n - 1] == Relabel(c[n - 1], outL)
      && code[n..n + t] == thenList.code
      && code[|code| - 1] == Label(outL)
      && |code| == n + t + 1
  {
    var outL := NewOutLabel(NewElseLabel(g).1).0;
    var code := PostIf(g, cond, thenList, elseList).res.value.code;
    assert code == Patched(cond.code, outL) + thenList.code + [Label(outL)];
  }

  /**
   * The layout of `while`: the loop label, the condition with its branch
   * re-targeted to the out label, the body, a jump back to the loop label
   * and the out label, two distinct labels.
   */
  lemma WhileLayout(g: Gen, cond: CodeObject, body: CodeObject)
    requires cond.code != []
    ensures var r := PostWhile(g, cond, body);
      && var (loopL, g1) := NewLoopLabel(g);
      && var outL := NewOutLabel(g1).0;
      && var c := cond.code;
      && var n := |c|;
      && var code := r.res.value.code;
      && r.res.Ok? && loopL != outL
      && |code| == n + |body.code| + 3
      && code[0] == Label(loopL)
      && code[1..n] == c[..n - 1] && code[n] == Relabel(c[n - 1], outL)
      && code[n + 1..n + 1 + |body.code|] == body.code
      && code[|code| - 2] == J(loopL) && code[|code| - 1] == Label(outL)
  {
    var (loopL, g1) := NewLoopLabel(g);
    var outL := NewOutLabel(g1).0;
    LabelFamiliesDisjoint(g, g1);
    var branch := Patched(cond.code, outL);
    var head := [Label(loopL)] + branch;
    var code := PostWhile(g, cond, body).res.value.code;
    assert code == head + body.code + [J(loopL), Label(outL)];
    assert code[..|head|] == head && head[1..] == branch;
    assert code[|head|..|head| + |body.code|] == body.code;
  }

  /** A statement list's code splits at any point into the code of the two parts. */
  lemma {:induction false} ConcatCodeAppend(a: seq<CodeObject>, b: seq<CodeObject>)
    ensures ConcatCode(a + b) == ConcatCode(a) + ConcatCode(b)
    decreases |b|
  {
    if b == [] {
      assert a + b == a;
    } else {
      assert (a + b)[..|a + b| - 1] == a + b[..|b| - 1];
      ConcatCodeAppend(a, b[..|b| - 1]);
    }
  }
}
