/**
 * The temporary and label allocators of `CodeGenerator`: `generateTemp`, the
 * four `generate*Label` counters and the two per-function labels, as
 * functions from the generator state to a name and the next state.
 */
module Alloc {
  import opened Wrappers
  import opened Numerals
  import opened Scope
  import opened Instructions
  import opened CodeObjects

  /** The `n`-th integer/pointer temporary, `t<n>`. */
  function IntTemp(n: nat): string { "t" + NatStr(n) }

  /** The `n`-th float temporary, `f<n>`. */
  function FloatTemp(n: nat): string { "f" + NatStr(n) }

  /** The kind of temporary that holds a value of type `t`: pointers live in integer registers. */
  function TempKind(t: InnerType): InnerType
  {
    if t == FLOAT then FLOAT else INT
  }

  /**
   * `generateTemp(t)`: INT and PTR draw the next integer temporary, FLOAT the
   * next float temporary; any other type is a fatal error.
   */
  function NewTemp(g: Gen, t: InnerType): (r: Out<string>)
    ensures r.res.Ok? <==> IsScalar(t)
    ensures r.res.Err? ==> r.gen == g
    ensures Extends(g, r.gen) && TempsOnly(g, r.gen)
  {
    match t
    case INT => Done(IntTemp(g.intRegCount + 1), g.(intRegCount := g.intRegCount + 1))
    case PTR => Done(IntTemp(g.intRegCount + 1), g.(intRegCount := g.intRegCount + 1))
    case FLOAT => Done(FloatTemp(g.floatRegCount + 1), g.(floatRegCount := g.floatRegCount + 1))
    case _ => Fail(Fatal("Generating temp for bad type"), g)
  }

  /** Every temporary name handed out since the counters were last reset. */
  function UsedTemps(g: Gen): set<string>
  {
    (set i | 1 <= i <= g.intRegCount :: IntTemp(i)) + (set i | 1 <= i <= g.floatRegCount :: FloatTemp(i))
  }

  /** `generateUnknownLabel`: the placeholder target of a branch not yet patched. */
  function NewUnknownLabel(g: Gen): (r: (string, Gen))
    ensures r.1 == g.(unknownLabel := g.unknownLabel + 1)
  {
    ("unknown_" + NatStr(g.unknownLabel + 1), g.(unknownLabel := g.unknownLabel + 1))
  }

  /** `generateLoopLabel`. */
  function NewLoopLabel(g: Gen): (r: (string, Gen))
    ensures r.1 == g.(loopLabel := g.loopLabel + 1)
  {
    ("loop_" + NatStr(g.loopLabel + 1), g.(loopLabel := g.loopLabel + 1))
  }

  /** `generateElseLabel`. */
  function NewElseLabel(g: Gen): (r: (string, Gen))
    ensures r.1 == g.(elseLabel := g.elseLabel + 1)
  {
    ("else_" + NatStr(g.elseLabel + 1), g.(elseLabel := g.elseLabel + 1))
  }

  /** `generateOutLabel`. */
  function NewOutLabel(g: Gen): (r: (string, Gen))
    ensures r.1 == g.(outLabel := g.outLabel + 1)
  {
    ("out_" + NatStr(g.outLabel + 1), g.(outLabel := g.outLabel + 1))
  }

  /** `generateFunctionLabel(func)`: the entry label of a function. */
  function FunctionLabel(func: string): (r: string)
  {
    "func_" + func
  }

  /** `generateFunctionOutLabel()`: the shared return label of the current function. */
  function FunctionOutLabel(g: Gen): (r: string)
  {
    "func_ret_" + Operand(g.currFunc)
  }

  /**
   * `preprocess(FunctionNode)`: remember the function's name and restart both
   * temporary counters; the label counters are left alone.
   */
  function Preprocess(g: Gen, name: string): (g': Gen)
    ensures g'.unknownLabel == g.unknownLabel && g'.loopLabel == g.loopLabel
    ensures g'.elseLabel == g.elseLabel && g'.outLabel == g.outLabel
    ensures g'.currFunc == Some(name) && UsedTemps(g') == {}
  {
    g.(currFunc := Some(name), intRegCount := 0, floatRegCount := 0)
  }
}
