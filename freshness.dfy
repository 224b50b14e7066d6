/**
 * Name freshness: every temporary `generateTemp` hands out is new since the
 * last `preprocess`, and labels of one family never repeat because their
 * counters only grow.
 */
module Freshness {
  import opened Wrappers
  import opened Numerals
  import opened Scope
  import opened Instructions
  import opened CodeObjects
  import opened Alloc

  /** A fixed prefix followed by a number names that number and no other. */
  lemma {:induction false} PrefixedNumberInjective(p: string, a: nat, b: nat)
    ensures p + NatStr(a) == p + NatStr(b) <==> a == b
  {
    if p + NatStr(a) == p + NatStr(b) {
      assert (p + NatStr(a))[|p|..] == NatStr(a);
      assert (p + NatStr(b))[|p|..] == NatStr(b);
      NatStrInjective(a, b);
    }
  }

  /** Integer and float temporaries never share a name; within a family the number decides. */
  lemma TempNamesDistinct(i: nat, j: nat)
    ensures IntTemp(i) != FloatTemp(j)
    ensures IntTemp(i) == IntTemp(j) <==> i == j
    ensures FloatTemp(i) == FloatTemp(j) <==> i == j
  {
    assert IntTemp(i)[0] == 't' && FloatTemp(j)[0] == 'f';
    PrefixedNumberInjective("t", i, j);
    PrefixedNumberInjective("f", i, j);
  }

  /** The next integer temporary is not in use, and drawing it adds exactly it. */
  lemma {:induction false} IntTempFresh(g: Gen)
    ensures var g' := g.(intRegCount := g.intRegCount + 1);
      IntTemp(g'.intRegCount) !in UsedTemps(g) && UsedTemps(g') == UsedTemps(g) + {IntTemp(g'.intRegCount)}
  {
    var k := g.intRegCount + 1;
    var ints := set i | 1 <= i <= g.intRegCount :: IntTemp(i);
    var ints' := set i | 1 <= i <= k :: IntTemp(i);
    var floats := set i | 1 <= i <= g.floatRegCount :: FloatTemp(i);
    assert IntTemp(k) !in ints by {
      forall i | 1 <= i <= g.intRegCount
        ensures IntTemp(i) != IntTemp(k)
      {
        TempNamesDistinct(i, k);
      }
    }
    assert IntTemp(k) !in floats by {
      forall i | 1 <= i <= g.floatRegCount
        ensures FloatTemp(i) != IntTemp(k)
      {
        TempNamesDistinct(k, i);
      }
    }
    assert ints' == ints + {IntTemp(k)} by {
      forall x | x in ints'
        ensures x in ints + {IntTemp(k)}
      {
        var i :| 1 <= i <= k && x == IntTemp(i);
        if i < k {
          assert x in ints;
        }
      }
    }
  }

  /** The next float temporary is not in use, and drawing it adds exactly it. */
  lemma {:induction false} FloatTempFresh(g: Gen)
    ensures var g' := g.(floatRegCount := g.floatRegCount + 1);
      FloatTemp(g'.floatRegCount) !in UsedTemps(g) && UsedTemps(g') == UsedTemps(g) + {FloatTemp(g'.floatRegCount)}
  {
    var k := g.floatRegCount + 1;
    var ints := set i | 1 <= i <= g.intRegCount :: IntTemp(i);
    var floats := set i | 1 <= i <= g.floatRegCount :: FloatTemp(i);
    var floats' := set i | 1 <= i <= k :: FloatTemp(i);
    assert FloatTemp(k) !in floats by {
      forall i | 1 <= i <= g.floatRegCount
        ensures FloatTemp(i) != FloatTemp(k)
      {
        TempNamesDistinct(i, k);
      }
    }
    assert FloatTemp(k) !in ints by {
      forall i | 1 <= i <= g.intRegCount
        ensures IntTemp(i) != FloatTemp(k)
      {
        TempNamesDistinct(i, k);
      }
    }
    assert floats' == floats + {FloatTemp(k)} by {
      forall x | x in floats'
        ensures x in floats + {FloatTemp(k)}
      {
        var i :| 1 <= i <= k && x == FloatTemp(i);
        if i < k {
          assert x in floats;
        }
      }
    }
  }

  /**
   * `generateTemp` on INT, FLOAT or PTR returns a name not handed out since
   * the counters were last reset, and afterwards exactly that name has been
   * added to the names in use; FLOAT draws from the float family, INT and
   * PTR from the integer one.
   */
  lemma NewTempFresh(g: Gen, t: InnerType)
    requires IsScalar(t)
    ensures var (name, g') := NewTemp(g, t).Extract();
      name !in UsedTemps(g) && UsedTemps(g') == UsedTemps(g) + {name}
      && name == (if t == FLOAT then FloatTemp(g'.floatRegCount) else IntTemp(g'.intRegCount))
  {
    if t == FLOAT {
      FloatTempFresh(g);
    } else {
      IntTempFresh(g);
    }
  }

  /** Counters that have only grown leave every earlier temporary in use. */
  lemma {:induction false} UsedTempsGrow(g: Gen, h: Gen)
    requires g.intRegCount <= h.intRegCount && g.floatRegCount <= h.floatRegCount
    ensures UsedTemps(g) <= UsedTemps(h)
  {
    forall x | x in UsedTemps(g)
      ensures x in UsedTemps(h)
    {
      if i :| 1 <= i <= g.intRegCount && x == IntTemp(i) {
        assert 1 <= i <= h.intRegCount;
      } else {
        var i :| 1 <= i <= g.floatRegCount && x == FloatTemp(i);
        assert 1 <= i <= h.floatRegCount;
      }
    }
  }

  /**
   * A temporary drawn in any state the generator reaches without a reset is
   * none of the temporaries in use at an earlier state.
   */
  lemma LaterTempsFresh(g: Gen, h: Gen, t: InnerType)
    requires Extends(g, h) && IsScalar(t)
    ensures NewTemp(h, t).Extract().0 !in UsedTemps(g)
  {
    UsedTempsGrow(g, h);
    NewTempFresh(h, t);
  }

  /**
   * A function's entry label is `func_` followed by its name, and the shared
   * return label of the current function is the entry label of the name
   * `ret_` followed by the function's name.
   */
  lemma FunctionLabelParts(func: string, g: Gen)
    ensures var r := FunctionLabel(func); |r| == |func| + 5 && r[..5] == "func_" && r[5..] == func
    ensures FunctionOutLabel(g) == FunctionLabel("ret_" + Operand(g.currFunc))
  {
    assert FunctionLabel(func)[5..] == func;
    assert "func_" + ("ret_" + Operand(g.currFunc)) == "func_ret_" + Operand(g.currFunc);
  }

  /**
   * Entry labels name their function, the return label of the function being
   * lowered differs from its entry label, and neither kind is ever a
   * placeholder, loop, else or out label.
   */
  lemma FunctionLabelsDistinct(f: string, g: Gen, h: Gen)
    ensures FunctionLabel(f) == FunctionLabel(Operand(h.currFunc)) <==> f == Operand(h.currFunc)
    ensures FunctionOutLabel(h) != FunctionLabel(Operand(h.currFunc))
    ensures FunctionLabel(f) != NewUnknownLabel(g).0 && FunctionLabel(f) != NewLoopLabel(g).0
    ensures FunctionLabel(f) != NewElseLabel(g).0 && FunctionLabel(f) != NewOutLabel(g).0
  {
    FunctionLabelParts(f, h);
    FunctionLabelParts(Operand(h.currFunc), h);
    assert FunctionLabel(f)[0] == 'f';
    assert NewUnknownLabel(g).0[0] == 'u' && NewLoopLabel(g).0[0] == 'l';
    assert NewElseLabel(g).0[0] == 'e' && NewOutLabel(g).0[0] == 'o';
    assert |FunctionOutLabel(h)| != |FunctionLabel(Operand(h.currFunc))|;
  }

  /**
   * Two placeholder labels drawn from states whose counters differ are
   * different, and likewise for loop, else and out labels; since the
   * counters never go back, no label is ever drawn twice.
   */
  lemma LabelNamesInjective(g: Gen, h: Gen)
    ensures NewUnknownLabel(g).0 == NewUnknownLabel(h).0 <==> g.unknownLabel == h.unknownLabel
    ensures NewLoopLabel(g).0 == NewLoopLabel(h).0 <==> g.loopLabel == h.loopLabel
    ensures NewElseLabel(g).0 == NewElseLabel(h).0 <==> g.elseLabel == h.elseLabel
    ensures NewOutLabel(g).0 == NewOutLabel(h).0 <==> g.outLabel == h.outLabel
  {
    UnknownLoopInjective(g, h);
    ElseOutInjective(g, h);
  }

  /** `LabelNamesInjective` for placeholder and loop labels. */
  lemma UnknownLoopInjective(g: Gen, h: Gen)
    ensures NewUnknownLabel(g).0 == NewUnknownLabel(h).0 <==> g.unknownLabel == h.unknownLabel
    ensures NewLoopLabel(g).0 == NewLoopLabel(h).0 <==> g.loopLabel == h.loopLabel
  {
    FamilyInjective("unknown_", g.unknownLabel, h.unknownLabel);
    FamilyInjective("loop_", g.loopLabel, h.loopLabel);
  }

  /** `LabelNamesInjective` for else and out labels. */
  lemma ElseOutInjective(g: Gen, h: Gen)
    ensures NewElseLabel(g).0 == NewElseLabel(h).0 <==> g.elseLabel == h.elseLabel
    ensures NewOutLabel(g).0 == NewOutLabel(h).0 <==> g.outLabel == h.outLabel
  {
    FamilyInjective("else_", g.elseLabel, h.elseLabel);
    FamilyInjective("out_", g.outLabel, h.outLabel);
  }

  /** The label after counter value `a` in family `p` is the one after `b` exactly when `a == b`. */
  lemma FamilyInjective(p: string, a: nat, b: nat)
    ensures p + NatStr(a + 1) == p + NatStr(b + 1) <==> a == b
  {
    PrefixedNumberInjective(p, a + 1, b + 1);
  }

  /**
   * A label drawn from any state whose counters have not gone back since an
   * earlier draw of the same family differs from that earlier label: in one
   * run of the generator no label is handed out twice.
   */
  lemma LaterLabelsDiffer(g: Gen, h: Gen)
    ensures LabelsExtend(NewUnknownLabel(g).1, h) ==> NewUnknownLabel(h).0 != NewUnknownLabel(g).0
    ensures LabelsExtend(NewLoopLabel(g).1, h) ==> NewLoopLabel(h).0 != NewLoopLabel(g).0
    ensures LabelsExtend(NewElseLabel(g).1, h) ==> NewElseLabel(h).0 != NewElseLabel(g).0
    ensures LabelsExtend(NewOutLabel(g).1, h) ==> NewOutLabel(h).0 != NewOutLabel(g).0
  {
    LabelNamesInjective(g, h);
  }

  /** Labels of different families never coincide. */
  lemma LabelFamiliesDisjoint(g: Gen, h: Gen)
    ensures NewElseLabel(g).0 != NewOutLabel(h).0
    ensures NewLoopLabel(g).0 != NewOutLabel(h).0
    ensures NewUnknownLabel(g).0 != NewElseLabel(h).0 && NewUnknownLabel(g).0 != NewOutLabel(h).0
    ensures NewUnknownLabel(g).0 != NewLoopLabel(h).0 && NewLoopLabel(g).0 != NewElseLabel(h).0
  {
    assert NewElseLabel(g).0[0] == 'e' && NewOutLabel(h).0[0] == 'o';
    assert NewLoopLabel(g).0[0] == 'l' && NewUnknownLabel(g).0[0] == 'u';
    assert NewLoopLabel(h).0[0] == 'l' && NewElseLabel(h).0[0] == 'e';
  }

  /** `preprocess` leaves the label counters alone and empties the set of temporaries in use. */
  lemma PreprocessResets(g: Gen, name: string)
    ensures var g' := Preprocess(g, name);
      g'.unknownLabel == g.unknownLabel && g'.loopLabel == g.loopLabel
      && g'.elseLabel == g.elseLabel && g'.outLabel == g.outLabel
      && UsedTemps(g') == {} && g'.currFunc == Some(name)
      && NewTemp(g', INT).Extract().0 == IntTemp(1) && NewTemp(g', FLOAT).Extract().0 == FloatTemp(1)
  {
  }
}
