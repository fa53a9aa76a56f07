/** Rounding of quantities and prices to a venue's published precision, over exact reals. */
module Precision {

  const MAX_PRECISION := 12

  function Clamp(precision: int): nat {
    if precision < 0 then 0 else if precision > MAX_PRECISION then MAX_PRECISION else precision
  }

  function Pow10(n: nat): (p: real)
    ensures p >= 1.0
  {
    if n == 0 then 1.0 else 10.0 * Pow10(n - 1)
  }

  /** Round half away from zero. */
  function RoundHalfAway(x: real): int {
    if x >= 0.0 then (x + 0.5).Floor else -((-x + 0.5).Floor)
  }

  function Scale(v: real, pow: real): real {
    v * pow
  }

  function Unscale(k: int, pow: real): real
    requires pow >= 1.0
  {
    k as real / pow
  }

  function RoundAt(v: real, pow: real): real
    requires pow >= 1.0
  {
    Unscale(RoundHalfAway(Scale(v, pow)), pow)
  }

  function RoundToPrecision(v: real, precision: int): real {
    RoundAt(v, Pow10(Clamp(precision)))
  }

  lemma RoundsWithinHalf(x: real)
    ensures -0.5 <= RoundHalfAway(x) as real - x <= 0.5
  {
  }

  lemma UnscaleError(v: real, k: int, pow: real)
    requires pow >= 1.0
    requires -0.5 <= k as real - Scale(v, pow) <= 0.5
    ensures -0.5 <= Scale(Unscale(k, pow) - v, pow) <= 0.5
  {
    assert Scale(Unscale(k, pow), pow) == k as real;
  }

  /** A value already on the grid stays there. */
  lemma GridStays(k: int, pow: real)
    requires pow >= 1.0
    ensures RoundAt(Unscale(k, pow), pow) == Unscale(k, pow)
  {
    assert Scale(Unscale(k, pow), pow) == k as real;
    assert RoundHalfAway(k as real) == k;
  }

  /** The request differs from the checked order by at most half a step, and rounding it again changes nothing. */
  lemma RoundingIsCloseAndStable(v: real, precision: int)
    ensures -0.5 <= Scale(RoundToPrecision(v, precision) - v, Pow10(Clamp(precision))) <= 0.5
    ensures RoundToPrecision(RoundToPrecision(v, precision), precision) == RoundToPrecision(v, precision)
  {
    var pow := Pow10(Clamp(precision));
    var k := RoundHalfAway(Scale(v, pow));
    RoundsWithinHalf(Scale(v, pow));
    UnscaleError(v, k, pow);
    GridStays(k, pow);
  }

  /** One unit of the last decimal place, for each precision that a venue may publish. */
  const STEPS: seq<real> :=
    [1.0, 0.1, 0.01, 0.001, 0.0001, 0.00001, 0.000001, 0.0000001, 0.00000001, 0.000000001, 0.0000000001,
     0.00000000001, 0.000000000001]

  lemma StepsArePowers(n: nat)
    requires n < |STEPS|
    ensures Pow10(n) * STEPS[n] == 1.0
  {
    assert Pow10(3) == 1000.0;
    assert Pow10(6) == 1000.0 * Pow10(3);
    assert Pow10(9) == 1000.0 * Pow10(6);
    assert Pow10(12) == 1000.0 * Pow10(9);
  }

  /** The result is a whole number of steps of the last place, at most half a step away, and ties go away from zero. */
  lemma RoundsToTheLastPlace(v: real, precision: int) returns (k: int)
    ensures var step := STEPS[if precision < 0 then 0 else if precision > 12 then 12 else precision];
      && RoundToPrecision(v, precision) == k as real * step
      && -step <= 2.0 * (k as real * step - v) <= step
      && (2.0 * (k as real * step - v) == -step ==> v < 0.0)
      && (2.0 * (k as real * step - v) == step ==> v > 0.0)
  {
    var n := Clamp(precision);
    var pow, step := Pow10(n), STEPS[n];
    StepsArePowers(n);
    k := RoundHalfAway(Scale(v, pow));
    InSteps(v, k, pow, step);
  }

  lemma InSteps(v: real, k: int, pow: real, step: real)
    requires pow >= 1.0 && pow * step == 1.0 && k == RoundHalfAway(Scale(v, pow))
    ensures Unscale(k, pow) == k as real * step
    ensures -step <= 2.0 * (k as real * step - v) <= step
    ensures 2.0 * (k as real * step - v) == -step ==> v < 0.0
    ensures 2.0 * (k as real * step - v) == step ==> v > 0.0
  {
    var x := Scale(v, pow);
    RoundsWithinHalf(x);
    assert step == 1.0 / pow > 0.0;
    assert v == x * step;
    var d := k as real - x;
    assert k as real * step - v == d * step;
    assert -0.5 <= d <= 0.5;
    ScalesOrder(d, step);
    assert x >= 0.0 ==> d > -0.5;
    assert x <= 0.0 ==> d < 0.5;
    assert v < 0.0 <==> x < 0.0;
    assert v > 0.0 <==> x > 0.0;
  }

  lemma ScalesOrder(d: real, step: real)
    requires step > 0.0
    ensures -0.5 <= d <==> -step <= 2.0 * (d * step)
    ensures d <= 0.5 <==> 2.0 * (d * step) <= step
    ensures d == -0.5 <==> 2.0 * (d * step) == -step
    ensures d == 0.5 <==> 2.0 * (d * step) == step
  {
  }
}
