/**
 * The two resolution primitives of the generator, `rvalify` and
 * `generateAddrFromVariable`, and the operand resolution that the binary
 * operator lowering performs inline for each of its operands.
 */
module Resolve {
  import opened Wrappers
  import opened Scope
  import opened Instructions
  import opened CodeObjects
  import opened Alloc

  /** The last instruction of a non-empty list (`getLast()`). */
  function Last(code: seq<Instr>): Instr
    requires code != []
  {
    code[|code| - 1]
  }

  /** The load that fetches a value of type `t`: `flw` for FLOAT, `lw` for INT and PTR. */
  function LoadFor(t: InnerType, dest: string, base: string, offset: string): Instr
  {
    if t == FLOAT then Flw(dest, base, offset) else Lw(dest, base, offset)
  }

  /** The store that writes a value of type `t`: `fsw` for FLOAT, `sw` otherwise. */
  function StoreFor(t: InnerType, src: string, base: string, offset: string): Instr
  {
    if t == FLOAT then Fsw(src, base, offset) else Sw(src, base, offset)
  }

  /** A type switch over a possibly-null type fails with a null dereference or the given error. */
  function WrongType(t: Option<InnerType>, message: string): Failure
  {
    if t.None? then NullPointer else Fatal(message)
  }

  /** The static type is present and one of INT, FLOAT, PTR. */
  predicate ScalarTy(t: Option<InnerType>) { t.Some? && IsScalar(t.value) }

  /** The static type is present and one of INT, FLOAT. */
  predicate NumericTy(t: Option<InnerType>) { t == Some(INT) || t == Some(FLOAT) }

  /**
   * `generateAddrFromVariable`: one instruction that leaves the variable's
   * address in a fresh integer temporary, `addi fp, <offset>` for a local and
   * `la <address>` for a global.
   */
  function AddrFromVariable(g: Gen, lco: CodeObject): (r: (seq<Instr>, Gen))
    requires lco.ste.Some?
    ensures |r.0| == 1 && Dest(r.0[0]).Some?
    ensures r.1 == g.(intRegCount := g.intRegCount + 1)
    ensures r.0[0].La? <==> !lco.ste.value.isLocal
  {
    var sym := lco.ste.value;
    var (t, g1) := NewTemp(g, INT).Extract();
    if sym.isLocal then ([Addi("fp", sym.addr, t)], g1) else ([La(t, sym.addr)], g1)
  }

  /**
   * `rvalify`: turn an lvalue into an rvalue holding the loaded value. A
   * local variable is loaded straight from its frame offset; a global has
   * its address materialised first and is loaded from offset 0 of it; an
   * lvalue with no symbol is loaded from offset 0 of its own register. The
   * load for a local is placed before the operand's own code, and for a
   * global pointer the operand's code is appended a second time after the
   * load, as the generator does.
   */
  function Rvalify(g: Gen, lco: CodeObject): (r: Out<CodeObject>)
    requires lco.lval
    ensures r.res.Ok? <==> ScalarTy(lco.ty)
    ensures r.res.Ok? ==>
      && !r.res.value.lval && r.res.value.ty == lco.ty && r.res.value.ste == lco.ste
      && r.res.value.temp.Some?
    ensures Extends(g, r.gen)
  {
    match lco.ste
    case Some(sym) =>
      if sym.isLocal then
        if !ScalarTy(lco.ty) then Fail(WrongType(lco.ty, "Wrong type"), g)
        else
          var t := lco.ty.value;
          var (nt, g1) := NewTemp(g, TempKind(t)).Extract();
          Done(Loaded(lco, [LoadFor(t, nt, "fp", sym.addr)] + lco.code, nt), g1)
      else
        var (il, g1) := AddrFromVariable(g, lco);
        if !ScalarTy(lco.ty) then Fail(WrongType(lco.ty, "Wrong type"), g1)
        else
          var t := lco.ty.value;
          var (nt, g2) := NewTemp(g1, TempKind(t)).Extract();
          var load := LoadFor(t, nt, Operand(Dest(Last(il))), "0");
          Done(Loaded(lco, il + lco.code + [load] + (if t == PTR then lco.code else []), nt), g2)
    case None =>
      if !ScalarTy(lco.ty) then Fail(WrongType(lco.ty, "Wrong type"), g)
      else
        var t := lco.ty.value;
        var (nt, g1) := NewTemp(g, TempKind(t)).Extract();
        Done(Loaded(lco, lco.code + [LoadFor(t, nt, Operand(lco.temp), "0")], nt), g1)
  }

  /** The rvalue `rvalify` builds: the loaded register, the operand's type and symbol. */
  function Loaded(lco: CodeObject, code: seq<Instr>, nt: string): CodeObject
  {
    CodeObject(code, Some(nt), false, lco.ty, None, lco.ste)
  }

  /** Resolve an operand to an rvalue only when it is an lvalue (`if (x.lval) x = rvalify(x)`). */
  function RvalifyIfLval(g: Gen, co: CodeObject): (r: Out<CodeObject>)
    ensures r.res.Ok? ==> !r.res.value.lval && (co.lval ==> r.res.value.ty == co.ty) && (!co.lval ==> r.res.value == co)
    ensures Extends(g, r.gen)
  {
    if co.lval then Rvalify(g, co) else Done(co, g)
  }

  /**
   * Operand resolution inside binary-operator lowering: the code that makes
   * the operand's value available and the register holding it. A local
   * variable is loaded after its code from its frame offset; any other
   * lvalue goes through `rvalify`; an rvalue is used as it is.
   */
  function LoadOperand(g: Gen, co: CodeObject): (r: Out<(seq<Instr>, string)>)
    ensures Extends(g, r.gen)
    ensures !co.lval ==> r == Done((co.code, Operand(co.temp)), g)
  {
    if !co.lval then Done((co.code, Operand(co.temp)), g)
    else if co.ste.Some? && co.ste.value.isLocal then
      if !ScalarTy(co.ty) then Fail(WrongType(co.ty, "Wrong type"), g)
      else
        var t := co.ty.value;
        var (nt, g1) := NewTemp(g, TempKind(t)).Extract();
        Done((co.code + [LoadFor(t, nt, "fp", co.ste.value.addr)], nt), g1)
    else
      var (rv, g1) :- Rvalify(g, co);
      Done((rv.code, Operand(rv.temp)), g1)
  }

  /**
   * Resolving an operand, whether for a binary operator or elsewhere, fails
   * exactly on an lvalue whose type is not INT, FLOAT or PTR.
   */
  lemma ResolveOkIff(g: Gen, co: CodeObject)
    ensures RvalifyIfLval(g, co).res.Ok? <==> !co.lval || ScalarTy(co.ty)
    ensures LoadOperand(g, co).res.Ok? <==> !co.lval || ScalarTy(co.ty)
  {
  }
}
