/**
 * Procedure lowering: `return`, function bodies with their frame set-up and
 * register save/restore, the program's function list, and calls with their
 * argument pushes and return-value pop.
 */
module Calls {
  import opened Wrappers
  import opened Numerals
  import opened Scope
  import opened Instructions
  import opened CodeObjects
  import opened Alloc
  import opened Resolve
  import opened Control

  /** `addi sp, <imm>, sp`. */
  function MoveSp(imm: string): Instr
  {
    Addi("sp", imm, "sp")
  }

  /**
   * `return`. In a VOID function nothing at all is emitted, not even the
   * jump to the return label. Otherwise the value is resolved to an rvalue
   * and stored to the return slot at `fp + 8` (`fsw` for FLOAT, `sw` for INT
   * and PTR, nothing for a VOID value), followed by a jump to the current
   * function's return label. A missing or untyped value and other types are
   * errors.
   */
  function PostReturn(g: Gen, funcTy: InnerType, retExpr: Option<CodeObject>): (r: Out<CodeObject>)
    ensures funcTy == VOID ==> r == Done(EmptyCo, g)
    ensures r.res.Ok? && funcTy != VOID ==>
      var code := r.res.value.code;
      code != [] && code[|code| - 1] == J(FunctionOutLabel(g))
    ensures Extends(g, r.gen)
  {
    if funcTy == VOID then Done(EmptyCo, g)
    else if retExpr.None? then Fail(NullPointer, g)
    else
      var (e, g1) :- RvalifyIfLval(g, retExpr.value);
      if e.ty.None? then Fail(NullPointer, g1)
      else
        var t := e.ty.value;
        if t == VOID || IsScalar(t) then
          var store := if t == VOID then [] else [StoreFor(t, Operand(e.temp), "fp", "8")];
          Done(Stmt(e.code + store + [J(FunctionOutLabel(g1))]), g1)
        else Fail(Fatal("Wrong Call Type"), g1)
  }

  /** The `n`-th temporary of a register file: `f<n>` for FLOAT, `t<n>` otherwise. */
  function Reg(kind: InnerType, n: nat): string
  {
    if kind == FLOAT then FloatTemp(n) else IntTemp(n)
  }

  /** Pushing temporaries 1..n of a register file, in increasing order, each followed by `sp -= 4`. */
  function Save(kind: InnerType, n: nat): seq<Instr>
  {
    if n == 0 then [] else Save(kind, n - 1) + [StoreFor(kind, Reg(kind, n), "sp", "0"), MoveSp("-4")]
  }

  /** Popping temporaries hi down to lo+1 of a register file, each preceded by `sp += 4`. */
  function Restore(kind: InnerType, hi: nat, lo: nat): seq<Instr>
    decreases hi - lo
  {
    if hi <= lo then [] else Restore(kind, hi, lo + 1) + [MoveSp("4"), LoadFor(kind, Reg(kind, lo + 1), "sp", "0")]
  }

  /** The function's entry label and the frame set-up for `numLocals` local slots. */
  function Prologue(name: string, numLocals: nat): seq<Instr>
  {
    [Label(FunctionLabel(name)), Sw("fp", "sp", "0"), Mv("sp", "fp"), MoveSp("-4"), MoveSp("-" + NatStr(numLocals * 4))]
  }

  /** Frame tear-down and return. */
  const Epilogue: seq<Instr> := [Mv("fp", "sp"), Lw("fp", "fp", "0"), Ret]

  /**
   * A function, lowered in the state reached after its body: the prologue,
   * the save of every integer and then every float temporary the body drew,
   * the body, the return label, the restore of the float and then the integer
   * temporaries in reverse order, and the epilogue.
   */
  function PostFunction(g: Gen, name: string, numLocals: nat, body: CodeObject): (r: CodeObject)
  {
    var k := g.intRegCount;
    var m := g.floatRegCount;
    Stmt(Prologue(name, numLocals) + Save(INT, k) + Save(FLOAT, m) + body.code
         + [Label(FunctionOutLabel(g))] + Restore(FLOAT, m, 0) + Restore(INT, k, 0) + Epilogue)
  }

  /** The functions' code, each followed by a blank line. */
  function JoinFunctions(funcs: seq<CodeObject>): seq<Instr>
  {
    if funcs == [] then [] else JoinFunctions(funcs[..|funcs| - 1]) + funcs[|funcs| - 1].code + [Blank]
  }

  /** The program's start-up sequence: set `fp`, call `main`, halt. */
  const StartUp: seq<Instr> := [Mv("sp", "fp"), Jr(FunctionLabel("main")), Halt, Blank]

  /** The program: the start-up sequence followed by every function. */
  function PostFunctionList(funcs: seq<CodeObject>): (r: CodeObject)
  {
    Stmt(StartUp + JoinFunctions(funcs))
  }

  /**
   * Pushing one argument: resolve it to an rvalue, store it at `0(sp)` (`fsw`
   * for FLOAT, `sw` for INT and PTR; a PTR with no register stores the
   * destination of its last instruction; a VOID value stores nothing) and
   * move `sp` down by 4.
   */
  function PushArg(g: Gen, arg: CodeObject): (r: Out<seq<Instr>>)
    ensures r.res.Ok? ==> |r.res.value| > 0 && r.res.value[|r.res.value| - 1] == MoveSp("-4")
    ensures Extends(g, r.gen)
  {
    var (e, g1) :- RvalifyIfLval(g, arg);
    if e.ty.None? then Fail(NullPointer, g1)
    else
      var t := e.ty.value;
      if !(t == VOID || IsScalar(t)) then Fail(Fatal("Wrong Call Type"), g1)
      else if t == PTR && e.temp.None? && e.code == [] then Fail(NoSuchElement, g1)
      else
        var store :=
          match t
          case INT => [Sw(Operand(e.temp), "sp", "0")]
          case FLOAT => [Fsw(Operand(e.temp), "sp", "0")]
          case PTR => [Sw(if e.temp.Some? then e.temp.value else Operand(Dest(Last(e.code))), "sp", "0")]
          case _ => [];
        Done(e.code + store + [MoveSp("-4")], g1)
  }

  /** Pushing the arguments left to right. */
  function PushArgs(g: Gen, args: seq<CodeObject>): (r: Out<seq<Instr>>)
    ensures Extends(g, r.gen)
  {
    if args == [] then Done([], g)
    else
      var (pre, g1) :- PushArgs(g, args[..|args| - 1]);
      var (one, g2) :- PushArg(g1, args[|args| - 1]);
      Done(pre + one, g2)
  }

  /**
   * The call sequence after the arguments: reserve the return slot, push
   * `ra`, jump to the callee, pop `ra`, and move `sp` back onto the return
   * slot.
   */
  function Linkage(name: string): seq<Instr>
  {
    [MoveSp("-4"), Sw("ra", "sp", "0"), MoveSp("-4"), Jr(FunctionLabel(name)),
     MoveSp("4"), Lw("ra", "sp", "0"), MoveSp("4")]
  }

  /**
   * The call's type check: as many argument code objects as argument nodes,
   * and each code object's type the same as its node's type by `sameType`.
   */
  predicate ArgsMatch(argTys: seq<Option<InnerType>>, args: seq<CodeObject>,
                      sameType: (Option<InnerType>, Option<InnerType>) -> bool)
  {
    |argTys| == |args| && forall i :: 0 <= i < |args| ==> sameType(argTys[i], args[i].ty)
  }

  /**
   * A call to `name` returning `ty`. A failed type check exits with status
   * 7. Then the arguments are pushed, the linkage runs, the return value is
   * popped into a fresh temporary of the return type (nothing for VOID, whose
   * register is the literal "0"), and `sp` moves up past the arguments.
   */
  function PostCall(g: Gen, ty: InnerType, name: string, argTys: seq<Option<InnerType>>, args: seq<CodeObject>,
                    sameType: (Option<InnerType>, Option<InnerType>) -> bool): (r: Out<CodeObject>)
    ensures !ArgsMatch(argTys, args, sameType) ==> r == Fail(Exit(7), g)
    ensures r.res.Ok? ==> !r.res.value.lval && r.res.value.ty == Some(ty) && r.res.value.temp.Some?
    ensures r.res.Ok? ==> ty == VOID || IsScalar(ty)
    ensures Extends(g, r.gen)
  {
    if !ArgsMatch(argTys, args, sameType) then Fail(Exit(7), g)
    else
      var (push, g1) :- PushArgs(g, args);
      var popArgs := MoveSp(NatStr(4 * |args|));
      if IsScalar(ty) then
        var (nt, g2) := NewTemp(g1, ty).Extract();
        Done(CodeObject(push + Linkage(name) + [LoadFor(ty, nt, "sp", "0"), popArgs], Some(nt), false, Some(ty), None, None), g2)
      else if ty == VOID then
        Done(CodeObject(push + Linkage(name) + [popArgs], Some("0"), false, Some(ty), None, None), g1)
      else Fail(Fatal("Wrong Call Type"), g1)
  }

  /** Once a prefix of the arguments fails to push, the whole push fails the same way. */
  lemma {:induction false} PushArgsStopsAtFailure(g: Gen, args: seq<CodeObject>, j: nat)
    requires j <= |args| && PushArgs(g, args[..j]).res.Err?
    ensures PushArgs(g, args) == PushArgs(g, args[..j])
    decreases |args|
  {
    if j < |args| {
      var pre := args[..|args| - 1];
      assert pre[..j] == args[..j];
      PushArgsStopsAtFailure(g, pre, j);
    } else {
      assert args[..j] == args;
    }
  }
}
