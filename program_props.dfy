/**
 * The leaves and the root of the lowering: literals load into a fresh
 * register, and the program places every function, in order, after the
 * start-up sequence.
 */
module ProgramProps {
  import opened Wrappers
  import opened Scope
  import opened Instructions
  import opened CodeObjects
  import opened Alloc
  import opened Expressions
  import opened Calls
  import opened Freshness

  /**
   * An integer literal is one `li` of its text into an integer register not
   * in use before, which becomes the literal's register; nothing else of the
   * state changes.
   */
  lemma IntLiteralLoadsFresh(g: Gen, val: string)
    ensures var (co, g') := PostIntLit(g, val);
      && var t := IntTemp(g.intRegCount + 1);
      && co.code == [Li(t, val)] && co.temp == Some(t) && Dest(co.code[0]) == co.temp
      && !co.lval && co.ty == Some(INT)
      && t !in UsedTemps(g) && UsedTemps(g') == UsedTemps(g) + {t}
      && g' == g.(intRegCount := g.intRegCount + 1)
  {
    NewTempFresh(g, INT);
  }

  /** A float literal is one `fimm.s` into a fresh float register, as for integers. */
  lemma FloatLiteralLoadsFresh(g: Gen, val: string)
    ensures var (co, g') := PostFloatLit(g, val);
      && var t := FloatTemp(g.floatRegCount + 1);
      && co.code == [FImm(t, val)] && co.temp == Some(t) && Dest(co.code[0]) == co.temp
      && !co.lval && co.ty == Some(FLOAT)
      && t !in UsedTemps(g) && UsedTemps(g') == UsedTemps(g) + {t}
      && g' == g.(floatRegCount := g.floatRegCount + 1)
  {
    NewTempFresh(g, FLOAT);
  }

  /** Joining two lists of functions is joining each and concatenating. */
  lemma {:induction false} JoinFunctionsAppend(a: seq<CodeObject>, b: seq<CodeObject>)
    ensures JoinFunctions(a + b) == JoinFunctions(a) + JoinFunctions(b)
    decreases |b|
  {
    if b == [] {
      assert a + b == a;
    } else {
      assert (a + b)[..|a + b| - 1] == a + b[..|b| - 1];
      JoinFunctionsAppend(a, b[..|b| - 1]);
    }
  }

  /**
   * The program starts with `mv sp, fp`, `jr func_main`, `halt` and a blank,
   * and each function's code comes after the code of the functions before
   * it, is followed by a blank line, and precedes the code of the functions
   * after it.
   */
  lemma FunctionPlacement(funcs: seq<CodeObject>, i: nat)
    requires i < |funcs|
    ensures var code := PostFunctionList(funcs).code;
      && code[..4] == [Mv("sp", "fp"), Jr("func_main"), Halt, Blank]
      && code == StartUp + JoinFunctions(funcs[..i]) + funcs[i].code + [Blank] + JoinFunctions(funcs[i + 1..])
  {
    assert FunctionLabel("main") == "func_main";
    var code := PostFunctionList(funcs).code;
    assert code == StartUp + JoinFunctions(funcs);
    assert code[..4] == StartUp;
    assert funcs == funcs[..i] + [funcs[i]] + funcs[i + 1..];
    JoinFunctionsAppend(funcs[..i] + [funcs[i]], funcs[i + 1..]);
    JoinFunctionsAppend(funcs[..i], [funcs[i]]);
    assert JoinFunctions([funcs[i]]) == funcs[i].code + [Blank] by {
      assert [funcs[i]][..0] == [];
    }
  }
}
