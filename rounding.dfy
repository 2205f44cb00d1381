/** check_result: the precision policy applied to a conversion before it is
    shown. Python's `round(x, 2)` and `round(Decimal(x), 6)` both round the
    exact value of `x` to the nearest multiple of 10^-places, ties going to
    the even neighbour; here `x` is an exact real. */
module Rounding {

  /** Results up to this value are shown with six decimals, larger ones with two. */
  const SmallResultLimit: real := 0.00009999000099990002

  /** `n` is the integer nearest to `y`, a tie going to the even one. */
  ghost predicate NearestEven(y: real, n: int) {
    y - 0.5 <= n as real <= y + 0.5 &&
    ((n as real - y == 0.5 || y - n as real == 0.5) ==> n % 2 == 0)
  }

  /** At most one integer is nearest-even to a real. */
  lemma NearestEvenUnique(y: real, n: int, m: int)
    requires NearestEven(y, n) && NearestEven(y, m)
    ensures n == m
  {
  }

  function RoundHalfEven(y: real): (n: int)
    ensures NearestEven(y, n)
  {
    var f := y.Floor;
    var frac := y - f as real;
    if frac < 0.5 then f
    else if frac > 0.5 then f + 1
    else if f % 2 == 0 then f
    else f + 1
  }

  /** Rounding to an integer gives 0 exactly on the closed band [-1/2, 1/2]. */
  lemma RoundedZeroIff(y: real, n: int)
    requires NearestEven(y, n)
    ensures n == 0 <==> -0.5 <= y <= 0.5
  {
    if -0.5 <= y <= 0.5 {
      assert NearestEven(y, 0);
      NearestEvenUnique(y, n, 0);
    }
  }

  function Pow10(n: nat): (p: real)
    ensures p >= 1.0
  {
    if n == 0 then 1.0 else 10.0 * Pow10(n - 1)
  }

  /** A decimal number `units` * 10^-`places`: `round(Decimal(x), 6)` gives
      one with six places, `round(x, 2)` a float holding one with two. */
  datatype Decimal = Decimal(units: int, places: nat) {
    function Value(): real {
      units as real / Pow10(places)
    }
  }

  /** The number of decimals check_result keeps for `x`. */
  function Places(x: real): nat {
    if x <= SmallResultLimit then 6 else 2
  }

  /** check_result: `x` rounded to Places(x) decimals, to the nearest such
      decimal, ties to even. */
  function CheckResult(x: real): (d: Decimal)
    ensures d.places == Places(x)
    ensures NearestEven(x * Pow10(d.places), d.units)
  {
    var places := Places(x);
    var scaled := x * Pow10(places);
    Decimal(RoundHalfEven(scaled), places)
  }

  /** The values that check_result turns into 0. */
  ghost predicate RoundsToZero(x: real) {
    if x <= SmallResultLimit then -0.0000005 <= x <= 0.0000005
    else x <= 0.005
  }

  /** check_result yields 0 exactly on the band of RoundsToZero: within half a
      millionth of 0 for small values, and up to 0.005 on the two-decimal side. */
  lemma CheckResultZeroIff(x: real)
    ensures CheckResult(x).Value() == 0.0 <==> RoundsToZero(x)
  {
    var d := CheckResult(x);
    assert Pow10(6) == 1000000.0;
    assert Pow10(2) == 100.0;
    RoundedZeroIff(x * Pow10(d.places), d.units);
  }
}
