/**
 * The unit of data flow of the lowering pass (`CodeObject`) and the state of
 * the generator object (`CodeGenerator`'s counter fields), as values.
 */
module CodeObjects {
  import opened Wrappers
  import opened Scope
  import opened Instructions

  /**
   * `CodeObject`: the instruction list, the register holding the value (an
   * rvalue) or the address (an lvalue), the lvalue flag, the static type
   * (`None` on statements, whose type the generator sets to null), the
   * auxiliary `newtemp` register and the symbol-table entry of a variable use.
   */
  datatype CodeObject = CodeObject(
    code: seq<Instr>,
    temp: Option<string>,
    lval: bool,
    ty: Option<InnerType>,
    newtemp: Option<string>,
    ste: Option<Sym>)

  /** `new CodeObject()`: no code, no register, an rvalue with no type and no symbol. */
  const EmptyCo: CodeObject := CodeObject([], None, false, None, None, None)

  /**
   * The generator's mutable fields: the per-function temporary counters, the
   * four program-wide label counters and the name of the function being
   * lowered (`None` before the first function, where Java holds null).
   */
  datatype Gen = Gen(
    intRegCount: nat,
    floatRegCount: nat,
    unknownLabel: nat,
    loopLabel: nat,
    elseLabel: nat,
    outLabel: nat,
    currFunc: Option<string>)

  /** The state set by the `CodeGenerator()` constructor. */
  const InitialGen: Gen := Gen(0, 0, 0, 0, 0, 0, None)

  /**
   * Why lowering stopped. `Fatal` is a thrown `java.lang.Error` (or a null
   * dereference or empty-list access, which abort in the same way);
   * `AssertionFailed` a failed Java `assert`; `Exit` a `System.exit(status)`.
   */
  datatype Failure = Fatal(message: string) | AssertionFailed | Exit(status: int)

  const NullPointer: Failure := Fatal("NullPointerException")
  const NoSuchElement: Failure := Fatal("NoSuchElementException")
  const IndexOutOfBounds: Failure := Fatal("IndexOutOfBoundsException")

  /**
   * The outcome of one generator step: a result and the generator state
   * afterwards. On failure the state is the one reached when the step gave
   * up, so counter updates made before the failure are kept.
   */
  datatype Out<+T> = Out(res: Result<T, Failure>, gen: Gen) {
    predicate IsFailure() { res.Err? }

    function PropagateFailure<U>(): Out<U>
      requires IsFailure()
    {
      Out(Err(res.error), gen)
    }

    function Extract(): (T, Gen)
      requires !IsFailure()
    {
      (res.value, gen)
    }
  }

  /** A step that succeeds with `v` and leaves the state `g`. */
  function Done<T>(v: T, g: Gen): Out<T> { Out(Ok(v), g) }

  /** A step that fails with `e` in state `g`. */
  function Fail<T>(e: Failure, g: Gen): Out<T> { Out(Err(e), g) }

  /** The label counters never go back, and the temporaries only grow, between `g` and `g'`. */
  predicate Extends(g: Gen, g': Gen)
  {
    && g.intRegCount <= g'.intRegCount && g.floatRegCount <= g'.floatRegCount
    && LabelsExtend(g, g') && g'.currFunc == g.currFunc
  }

  /** From `g` to `g'` only the temporary counters have changed, and they have only grown. */
  predicate TempsOnly(g: Gen, g': Gen)
  {
    && g' == g.(intRegCount := g'.intRegCount, floatRegCount := g'.floatRegCount)
    && g.intRegCount <= g'.intRegCount && g.floatRegCount <= g'.floatRegCount
  }

  /** The four label counters never go back. */
  predicate LabelsExtend(g: Gen, g': Gen)
  {
    g.unknownLabel <= g'.unknownLabel && g.loopLabel <= g'.loopLabel
    && g.elseLabel <= g'.elseLabel && g.outLabel <= g'.outLabel
  }
}
