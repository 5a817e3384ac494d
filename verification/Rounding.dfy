/** Rounding of decimal strings and of ticks, over exact rationals. */
module Rounding {

  function Abs(x: real): (r: real)
    ensures r >= 0.0 && (r == x || r == -x)
  {
    if x < 0.0 then -x else x
  }

  function Max(x: real, y: real): real { if x < y then y else x }

  function Min(x: real, y: real): real { if x < y then x else y }

  /** A share given in percent or as a fraction. */
  lemma PerCent(x: real, percent: real, share: real)
    requires percent == 100.0 * share
    ensures x * percent / 100.0 == x * share
  {
    assert x * percent == 100.0 * (x * share);
  }

  /** `Math.round`: the nearest integer, ties upwards. */
  function MathRound(x: real): (n: int)
    ensures n as real - 0.5 <= x < n as real + 0.5
  {
    (x + 0.5).Floor
  }

  /** `parseFloat(x.toFixed(d))` with `scale` = 10^d: nearest multiple, ties away from zero. */
  function ToFixed(x: real, scale: real): real
    requires scale > 0.0
  {
    if x < 0.0 then -(MathRound(-x * scale) as real / scale) else MathRound(x * scale) as real / scale
  }

  function Fixed2(x: real): real { ToFixed(x, 100.0) }

  function Fixed4(x: real): real { ToFixed(x, 10000.0) }

  /** A number of cents that is not negative is rounded on its own side of zero. */
  lemma Fixed2OfAbs(x: real)
    ensures var n := MathRound(Abs(x) * 100.0);
            n >= 0 && Fixed2(x) == (if x < 0.0 then -n else n) as real / 100.0
  {
  }

  lemma WholeCents(n: int)
    ensures (n as real / 100.0 * 100.0).Floor as real == n as real / 100.0 * 100.0
  {
    assert n as real / 100.0 * 100.0 == n as real;
  }

  /** Two decimals: at most half a cent off, on the same side of zero, odd, and a whole number of cents. */
  lemma Fixed2Near(x: real)
    ensures x - 0.005 <= Fixed2(x) <= x + 0.005
    ensures x >= 0.0 ==> Fixed2(x) >= 0.0
    ensures x <= 0.0 ==> Fixed2(x) <= 0.0
    ensures Fixed2(-x) == -Fixed2(x)
    ensures (Fixed2(x) * 100.0).Floor as real == Fixed2(x) * 100.0
  {
    var n := MathRound(Abs(x) * 100.0);
    Fixed2OfAbs(x);
    Fixed2OfAbs(-x);
    WholeCents(if x < 0.0 then -n else n);
    hide Fixed2, MathRound;
  }

  /** Four decimals: at most half of the fourth one off. */
  lemma Fixed4Near(x: real)
    ensures x - 0.00005 <= Fixed4(x) <= x + 0.00005
  {
  }

  lemma RoundNearest(y: real, m: int)
    ensures Abs(y - MathRound(y) as real) <= Abs(y - m as real)
    ensures y == m as real ==> MathRound(y) == m
  {
  }

  /** No multiple of a cent is nearer. */
  lemma Fixed2Nearest(x: real, cents: int)
    ensures Abs(x - Fixed2(x)) <= Abs(x - cents as real / 100.0)
  {
    var y, m := Abs(x) * 100.0, if x < 0.0 then -cents else cents;
    var n := MathRound(y);
    RoundNearest(y, m);
    assert Fixed2(x) == if x < 0.0 then -(n as real / 100.0) else n as real / 100.0;
    assert Abs(x - Fixed2(x)) == Abs(y - n as real) / 100.0;
    assert m as real == if x < 0.0 then -(cents as real) else cents as real;
    assert Abs(x - cents as real / 100.0) == Abs(y - m as real) / 100.0;
  }

  /** Rounding a whole number of cents changes nothing. */
  lemma Fixed2Idempotent(x: real)
    ensures Fixed2(Fixed2(x)) == Fixed2(x)
  {
    Fixed2Near(x);
    var c := (Fixed2(x) * 100.0).Floor;
    RoundNearest(Abs(Fixed2(x)) * 100.0, if x < 0.0 then -c else c);
    assert Fixed2(x) == c as real / 100.0;
  }
}
