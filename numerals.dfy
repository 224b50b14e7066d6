/**
 * Decimal rendering of numbers, as Java's `String.valueOf(int)` and
 * `Integer.toString(int)` produce it for the non-negative counters and frame
 * sizes the generator prints, together with the parser that reads such an
 * immediate back. The parser is only used to state properties (stack-pointer
 * arithmetic); the generator itself never parses anything.
 */
module Numerals {
  import opened Wrappers

  predicate IsDigit(c: char) { '0' <= c <= '9' }

  function DigitChar(d: nat): (c: char)
    requires d < 10
    ensures IsDigit(c) && c as int - '0' as int == d
  {
    "0123456789"[d]
  }

  function DigitVal(c: char): nat
    requires IsDigit(c)
  {
    c as int - '0' as int
  }

  /** The decimal digits of `n`, most significant first, without leading zeros. */
  function NatStr(n: nat): (s: string)
    ensures |s| > 0 && forall i :: 0 <= i < |s| ==> IsDigit(s[i])
    ensures s[0] == '0' ==> n == 0
  {
    if n < 10 then [DigitChar(n)] else NatStr(n / 10) + [DigitChar(n % 10)]
  }

  /** The value of a non-empty string of decimal digits. */
  function ParseNat(s: string): nat
    requires |s| > 0 && forall i :: 0 <= i < |s| ==> IsDigit(s[i])
  {
    var last := DigitVal(s[|s| - 1]);
    if |s| == 1 then last else ParseNat(s[..|s| - 1]) * 10 + last
  }

  /** The value of an integer immediate: optional minus sign, then decimal digits. */
  function ParseInt(s: string): Option<int>
  {
    if |s| > 0 && s[0] == '-' then
      var d := s[1..];
      if |d| > 0 && forall i :: 0 <= i < |d| ==> IsDigit(d[i]) then Some(-(ParseNat(d) as int)) else None
    else if |s| > 0 && forall i :: 0 <= i < |s| ==> IsDigit(s[i]) then Some(ParseNat(s))
    else None
  }

  /** Reading back the rendering of `n` gives `n`. */
  lemma {:induction false} ParseNatStr(n: nat)
    ensures ParseNat(NatStr(n)) == n
  {
    if n >= 10 {
      var s := NatStr(n);
      assert s[..|s| - 1] == NatStr(n / 10);
      ParseNatStr(n / 10);
    }
  }

  /** Distinct numbers have distinct renderings. */
  lemma NatStrInjective(a: nat, b: nat)
    ensures NatStr(a) == NatStr(b) <==> a == b
  {
    if NatStr(a) == NatStr(b) {
      ParseNatStr(a);
      ParseNatStr(b);
    }
  }

  /** The immediates `NatStr(n)` and `"-" + NatStr(n)` parse to `n` and `-n`. */
  lemma ParseIntNatStr(n: nat)
    ensures ParseInt(NatStr(n)) == Some(n)
    ensures ParseInt("-" + NatStr(n)) == Some(-(n as int))
  {
    ParseNatStr(n);
    var s := "-" + NatStr(n);
    assert s[1..] == NatStr(n);
  }
}
