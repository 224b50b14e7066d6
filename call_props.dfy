/**
 * What procedure lowering emits: where `return` leaves the value, the order
 * of the register saves and restores around a body, and the stack frame a
 * call builds, which lines up the caller's load of the result with the
 * callee's store to `fp + 8`.
 */
module CallProps {
  import opened Wrappers
  import opened Numerals
  import opened Scope
  import opened Instructions
  import opened CodeObjects
  import opened Alloc
  import opened Resolve
  import opened Ast
  import opened Control
  import opened Calls
  import opened Lowering
  import opened StackDiscipline

  /**
   * `return e` in a non-VOID function: `e` resolved to an rvalue (loaded
   * first when it is a variable or other lvalue), a store of its register to
   * the return slot at `fp + 8` (`fsw` for FLOAT), and a jump to the current
   * function's return label.
   */
  lemma ReturnStoresToSlot(g: Gen, funcTy: InnerType, e: CodeObject)
    requires funcTy != VOID && e.ty.Some? && IsScalar(e.ty.value)
    ensures var rv := RvalifyIfLval(g, e);
      && rv.res.Ok?
      && var r := PostReturn(g, funcTy, Some(e));
      && r.res.Ok? && r.gen == rv.gen
      && r.res.value.code == rv.res.value.code
           + [StoreFor(e.ty.value, Operand(rv.res.value.temp), "fp", "8"), J(FunctionOutLabel(g))]
  {
  }

  /** `return` with no value in a non-VOID function is a null dereference. */
  lemma ReturnWithoutValueFails(g: Gen, funcTy: InnerType)
    requires funcTy != VOID
    ensures PostReturn(g, funcTy, None) == Fail(NullPointer, g)
  {
  }

  /**
   * In a VOID function, `return e` emits nothing at all: the code of `e` is
   * dropped, so neither its side effects (a call, say) nor the jump to the
   * return label appear, while the temporaries and labels it drew stay drawn.
   */
  lemma VoidReturnDropsValue(g: Gen, e: Node, sameType: (Option<InnerType>, Option<InnerType>) -> bool)
    requires Lower(g, e, sameType).res.Ok?
    ensures var r := Lower(g, Return(VOID, Some(e)), sameType);
      r.res.Ok? && r.res.value.code == [] && r.gen == Lower(g, e, sameType).gen
  {
  }

  /**
   * A function's code is a statement that opens with its entry label and
   * closes with `ret`.
   */
  lemma FunctionBrackets(g: Gen, name: string, numLocals: nat, body: CodeObject)
    ensures var r := PostFunction(g, name, numLocals, body);
      && !r.lval && r.ty.None? && r.temp.None?
      && |r.code| > |body.code|
      && r.code[0] == Label(FunctionLabel(name)) && r.code[|r.code| - 1] == Ret
  {
    var k := g.intRegCount;
    var m := g.floatRegCount;
    FunctionHead(name, numLocals, k, m);
    LayoutPrefix(Prologue(name, numLocals) + Save(INT, k) + Save(FLOAT, m), body.code, Label(FunctionOutLabel(g)),
                 Restore(FLOAT, m, 0), Restore(INT, k, 0), Epilogue, PostFunction(g, name, numLocals, body).code);
  }

  /**
   * The body sits right after the prologue and the register saves (five
   * instructions plus two per saved register), and is followed at once by
   * the function's return label.
   */
  lemma FunctionLayout(g: Gen, name: string, numLocals: nat, body: CodeObject)
    ensures var code := PostFunction(g, name, numLocals, body).code;
      var p := 5 + 2 * (g.intRegCount + g.floatRegCount);
      && |code| > p + |body.code|
      && code[p..p + |body.code|] == body.code
      && code[p + |body.code|] == Label(FunctionOutLabel(g))
  {
    var k := g.intRegCount;
    var m := g.floatRegCount;
    var head := Prologue(name, numLocals) + Save(INT, k) + Save(FLOAT, m);
    FunctionHead(name, numLocals, k, m);
    LayoutPrefix(head, body.code, Label(FunctionOutLabel(g)), Restore(FLOAT, m, 0), Restore(INT, k, 0), Epilogue,
                 PostFunction(g, name, numLocals, body).code);
  }

  /** The part of a function before its body: the entry label first, five plus two per saved register. */
  lemma FunctionHead(name: string, numLocals: nat, k: nat, m: nat)
    ensures var head := Prologue(name, numLocals) + Save(INT, k) + Save(FLOAT, m);
      |head| == 5 + 2 * (k + m) && head[0] == Label(FunctionLabel(name))
  {
    SaveLength(INT, k);
    SaveLength(FLOAT, m);
  }

  /**
   * In `head + b + [l] + m1 + m2 + tail` (with `head` and `tail` not empty)
   * `b` sits right after `head`, and `l` right after `b`.
   */
  lemma LayoutPrefix<T>(head: seq<T>, b: seq<T>, l: T, m1: seq<T>, m2: seq<T>, tail: seq<T>, s: seq<T>)
    requires head != [] && tail != []
    requires s == head + b + [l] + m1 + m2 + tail
    ensures |s| > |head| + |b|
    ensures s[0] == head[0] && s[|s| - 1] == tail[|tail| - 1]
    ensures s[|head|..|head| + |b|] == b && s[|head| + |b|] == l
  {
    assert s[|head|..|head| + |b|] == (head + b)[|head|..];
  }

  /** Saving temporaries 1..n takes two instructions each. */
  lemma {:induction false} SaveLength(kind: InnerType, n: nat)
    ensures |Save(kind, n)| == 2 * n
  {
    if n > 0 {
      SaveLength(kind, n - 1);
    }
  }

  /** The register saves: for each temporary 1..n in order, a store to `0(sp)` followed by `sp -= 4`. */
  lemma {:induction false} SaveShape(kind: InnerType, n: nat)
    ensures |Save(kind, n)| == 2 * n
    ensures forall i :: 0 <= i < n ==>
      Save(kind, n)[2 * i] == StoreFor(kind, Reg(kind, i + 1), "sp", "0") && Save(kind, n)[2 * i + 1] == MoveSp("-4")
  {
    if n > 0 {
      SaveShape(kind, n - 1);
      var s := Save(kind, n);
      var prev := Save(kind, n - 1);
      var step := [StoreFor(kind, Reg(kind, n), "sp", "0"), MoveSp("-4")];
      assert s == prev + step && |prev| == 2 * (n - 1);
      forall i | 0 <= i < n
        ensures s[2 * i] == StoreFor(kind, Reg(kind, i + 1), "sp", "0") && s[2 * i + 1] == MoveSp("-4")
      {
        if i < n - 1 {
          assert s[2 * i] == prev[2 * i] && s[2 * i + 1] == prev[2 * i + 1];
        } else {
          assert s[2 * i] == step[0] && s[2 * i + 1] == step[1];
        }
      }
    }
  }

  /** The register restores, from `hi` down to `lo + 1`: each `sp += 4` followed by a load from `0(sp)`. */
  lemma {:induction false} RestoreShape(kind: InnerType, hi: nat, lo: nat)
    requires lo <= hi
    ensures |Restore(kind, hi, lo)| == 2 * (hi - lo)
    ensures forall i :: 0 <= i < hi - lo ==>
      Restore(kind, hi, lo)[2 * i] == MoveSp("4") && Restore(kind, hi, lo)[2 * i + 1] == LoadFor(kind, Reg(kind, hi - i), "sp", "0")
    decreases hi - lo
  {
    if lo < hi {
      RestoreShape(kind, hi, lo + 1);
      var s := Restore(kind, hi, lo);
      var m := hi - lo - 1;
      var rest := Restore(kind, hi, lo + 1);
      var step := [MoveSp("4"), LoadFor(kind, Reg(kind, lo + 1), "sp", "0")];
      assert s == rest + step && |rest| == 2 * m;
      forall i | 0 <= i < hi - lo
        ensures s[2 * i] == MoveSp("4") && s[2 * i + 1] == LoadFor(kind, Reg(kind, hi - i), "sp", "0")
      {
        if i < m {
          assert s[2 * i] == rest[2 * i] && s[2 * i + 1] == rest[2 * i + 1];
        } else {
          assert i == m && hi - i == lo + 1;
          assert s[2 * i] == step[0] && s[2 * i + 1] == step[1];
        }
      }
    }
  }

  /**
   * The restores pop in the reverse order of the saves: the `j`-th reload
   * is of the register stored by the `j`-th save from the end, with the load
   * that matches the save's store.
   */
  lemma RestoreReversesSave(kind: InnerType, n: nat, j: nat)
    requires j < n
    ensures |Save(kind, n)| == |Restore(kind, n, 0)| == 2 * n
    ensures Save(kind, n)[2 * (n - 1 - j)] == StoreFor(kind, Reg(kind, n - j), "sp", "0")
    ensures Restore(kind, n, 0)[2 * j + 1] == LoadFor(kind, Reg(kind, n - j), "sp", "0")
  {
    SaveShape(kind, n);
    RestoreShape(kind, n, 0);
  }

  /** The registers a sequence of instructions stores to memory. */
  function StoredRegs(code: seq<Instr>): set<string>
  {
    if code == [] then {}
    else
      var i := code[|code| - 1];
      StoredRegs(code[..|code| - 1]) + (if i.Sw? || i.Fsw? then {i.src1} else {})
  }

  /** The temporaries 1..n of a register file. */
  function File(kind: InnerType, n: nat): set<string>
  {
    set i | 1 <= i <= n :: Reg(kind, i)
  }

  /** Growing a register file by one adds exactly its next temporary. */
  lemma FileGrows(kind: InnerType, n: nat)
    requires n > 0
    ensures File(kind, n) == File(kind, n - 1) + {Reg(kind, n)}
  {
    forall x | x in File(kind, n) ensures x in File(kind, n - 1) + {Reg(kind, n)} {
      var i :| 1 <= i <= n && x == Reg(kind, i);
      if i < n { assert x in File(kind, n - 1); }
    }
  }

  /** The registers one register file's saves store are its temporaries 1..n. */
  lemma {:induction false} SavedFile(kind: InnerType, n: nat)
    ensures StoredRegs(Save(kind, n)) == File(kind, n)
  {
    if n == 0 {
      assert File(kind, 0) == {};
    } else {
      SavedFile(kind, n - 1);
      FileGrows(kind, n);
      var store := StoreFor(kind, Reg(kind, n), "sp", "0");
      StoredRegsAppend(Save(kind, n - 1), [store, MoveSp("-4")]);
      SaveStepStores(kind, n);
    }
  }

  /** One save step stores exactly its register. */
  lemma SaveStepStores(kind: InnerType, n: nat)
    ensures StoredRegs([StoreFor(kind, Reg(kind, n), "sp", "0"), MoveSp("-4")]) == {Reg(kind, n)}
  {
    var store := StoreFor(kind, Reg(kind, n), "sp", "0");
    assert [store][..0] == [];
    assert StoredRegs([store]) == {Reg(kind, n)};
    assert [store, MoveSp("-4")][..1] == [store];
  }

  /** Stored registers distribute over concatenation. */
  lemma {:induction false} StoredRegsAppend(a: seq<Instr>, b: seq<Instr>)
    ensures StoredRegs(a + b) == StoredRegs(a) + StoredRegs(b)
    decreases |b|
  {
    if b == [] {
      assert a + b == a;
    } else {
      assert (a + b)[..|a + b| - 1] == a + b[..|b| - 1];
      StoredRegsAppend(a, b[..|b| - 1]);
    }
  }

  /** The integer file is the `t` temporaries and the float file the `f` temporaries. */
  lemma FileNames(n: nat)
    ensures File(INT, n) == set i | 1 <= i <= n :: IntTemp(i)
    ensures File(FLOAT, n) == set i | 1 <= i <= n :: FloatTemp(i)
  {
    forall x | x in File(INT, n) ensures x in set i | 1 <= i <= n :: IntTemp(i) {
      var i :| 1 <= i <= n && x == Reg(INT, i);
      assert x == IntTemp(i);
    }
    forall x | x in (set i | 1 <= i <= n :: IntTemp(i)) ensures x in File(INT, n) {
      var i :| 1 <= i <= n && x == IntTemp(i);
      assert x == Reg(INT, i);
    }
    forall x | x in File(FLOAT, n) ensures x in set i | 1 <= i <= n :: FloatTemp(i) {
      var i :| 1 <= i <= n && x == Reg(FLOAT, i);
      assert x == FloatTemp(i);
    }
    forall x | x in (set i | 1 <= i <= n :: FloatTemp(i)) ensures x in File(FLOAT, n) {
      var i :| 1 <= i <= n && x == FloatTemp(i);
      assert x == Reg(FLOAT, i);
    }
  }

  /** The registers a function saves are exactly the temporaries its body drew. */
  lemma SavedRegistersAreUsed(g: Gen)
    ensures StoredRegs(Save(INT, g.intRegCount) + Save(FLOAT, g.floatRegCount)) == UsedTemps(g)
  {
    StoredRegsAppend(Save(INT, g.intRegCount), Save(FLOAT, g.floatRegCount));
    FileNames(g.intRegCount);
    FileNames(g.floatRegCount);
    SavedFile(INT, g.intRegCount);
    SavedFile(FLOAT, g.floatRegCount);

  }


  /** A call's code: the argument pushes, the linkage, the load of the result and the pop of the arguments. */
  lemma CallCode(g: Gen, ty: InnerType, name: string, argTys: seq<Option<InnerType>>, args: seq<CodeObject>,
                 sameType: (Option<InnerType>, Option<InnerType>) -> bool)
    requires IsScalar(ty)
    ensures var r := PostCall(g, ty, name, argTys, args, sameType);
      r.res.Ok? ==>
        && PushArgs(g, args).res.Ok?
        && r.res.value.code == PushArgs(g, args).res.value + Linkage(name)
             + [LoadFor(ty, Operand(r.res.value.temp), "sp", "0"), MoveSp(NatStr(4 * |args|))]
  {
  }

  /** The stack-pointer offsets inside `push + linkage + tail`, relative to those of `push`. */
  lemma FrameOffsets(push: seq<Instr>, name: string, tail: seq<Instr>)
    requires |tail| == 2
    ensures var code := push + Linkage(name) + tail;
      && var p := |push|;
      && |code| == p + 9
      && code[p + 1] == Sw("ra", "sp", "0") && SpNet(code[..p + 1]) == SpNet(push) - 4
      && code[p + 3] == Jr(FunctionLabel(name)) && SpNet(code[..p + 3]) == SpNet(push) - 8
      && code[p + 5] == Lw("ra", "sp", "0") && SpNet(code[..p + 5]) == SpNet(push) - 4
      && code[p + 7] == tail[0] && SpNet(code[..p + 7]) == SpNet(push)
  {
    var l := Linkage(name);
    var code := push + l + tail;
    var p := |push|;
    LinkageOffsets(name);
    assert code[..p + 1] == push + l[..1];
    assert code[..p + 3] == push + l[..3];
    assert code[..p + 5] == push + l[..5];
    assert code[..p + 7] == push + l;
    SpNetAppend(push, l[..1]);
    SpNetAppend(push, l[..3]);
    SpNetAppend(push, l[..5]);
    SpNetAppend(push, l);
  }

  /**
   * The frame a call builds, as offsets from `sp` before the call, for
   * arguments whose own code is balanced. The arguments take the `n` words
   * below it; the return address is stored, and later reloaded, at
   * `-4n - 4`; the callee is entered with `sp` at `-4n - 8`, so the slot it
   * stores its result to, `fp + 8`, is `-4n`, exactly where the caller loads
   * the result from `0(sp)`; the final adjustment brings `sp` back to 0.
   */
  lemma CallFrame(g: Gen, ty: InnerType, name: string, argTys: seq<Option<InnerType>>, args: seq<CodeObject>,
                  sameType: (Option<InnerType>, Option<InnerType>) -> bool)
    requires forall i :: 0 <= i < |args| ==> Balanced(args[i].code)
    requires IsScalar(ty)
    ensures var r := PostCall(g, ty, name, argTys, args, sameType);
      r.res.Ok? ==>
        && var push := PushArgs(g, args).res.value;
        && var code := r.res.value.code;
        && var n := |args|;
        && var p := |push|;
        && |code| == p + 9
        && SpNet(push) == -4 * n
        && code[p + 1] == Sw("ra", "sp", "0") && SpNet(code[..p + 1]) == -4 * n - 4
        && code[p + 3] == Jr(FunctionLabel(name)) && SpNet(code[..p + 3]) == -4 * n - 8
        && code[p + 5] == Lw("ra", "sp", "0") && SpNet(code[..p + 5]) == -4 * n - 4
        && code[p + 7] == LoadFor(ty, Operand(r.res.value.temp), "sp", "0") && SpNet(code[..p + 7]) == -4 * n
        && SpNet(code) == 0
  {
    var r := PostCall(g, ty, name, argTys, args, sameType);
    if r.res.Ok? {
      CallCode(g, ty, name, argTys, args, sameType);
      var push := PushArgs(g, args).res.value;
      PushArgsMove(g, args);
      var tail := [LoadFor(ty, Operand(r.res.value.temp), "sp", "0"), MoveSp(NatStr(4 * |args|))];
      assert r.res.value.code == push + Linkage(name) + tail;
      FrameOffsets(push, name, tail);
      CallBalanced(g, ty, name, argTys, args, sameType);
    }
  }
}
