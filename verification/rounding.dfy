/**
 * `Math.round` on exact rationals: the nearest integer, halves rounded up
 * (towards positive infinity). Floating-point error is not modelled.
 */
module Rounding {

  /** `Math.round(x)`. */
  function Round(x: real): (r: int)
    ensures r as real - 0.5 <= x < r as real + 0.5
  {
    (x + 0.5).Floor
  }

  /** `Math.round((part / whole) * 100)`, a whole percentage. */
  function Percent(part: nat, whole: nat): (r: int)
    requires whole > 0
    ensures part <= whole ==> 0 <= r <= 100
  {
    var x := (part as real / whole as real) * 100.0;
    assert part <= whole ==> x <= 100.0 by {
      if part <= whole {
        assert part as real / whole as real <= 1.0;
      }
    }
    Round(x)
  }

  /** The contract of `Round` pins down one integer: any integer within half of `x` (half open) is `Round(x)`. */
  lemma RoundUnique(x: real, n: int)
    requires n as real - 0.5 <= x < n as real + 0.5
    ensures Round(x) == n
  {
  }

  /** Rounding never reverses an order. */
  lemma RoundMonotone(x: real, y: real)
    requires x <= y
    ensures Round(x) <= Round(y)
  {
  }

  /** A tied share of wins reads as exactly fifty per cent; every share from `0` to `1` reads between `0` and `100`. */
  lemma PercentOfHalf(n: nat)
    requires n > 0
    ensures Percent(n, 2 * n) == 50
  {
    assert n as real / (2 * n) as real == 0.5;
    RoundUnique(50.0, 50);
  }

  function Pow10(digits: nat): (r: nat)
    ensures r >= 1
  {
    if digits == 0 then 1 else 10 * Pow10(digits - 1)
  }

  /** The multiple `n / unit`. */
  function Scaled(n: int, unit: nat): (r: real)
    requires unit >= 1
  {
    n as real / unit as real
  }

  lemma ScaledBack(n: int, unit: nat)
    requires unit >= 1
    ensures Scaled(n, unit) * unit as real == n as real
  {
  }

  lemma ScaledSign(n: int, unit: nat)
    requires unit >= 1
    ensures n >= 0 ==> Scaled(n, unit) >= 0.0
    ensures n > 0 ==> Scaled(n, unit) > 0.0
  {
  }

  lemma ScaledMonotone(m: int, n: int, unit: nat)
    requires m <= n && unit >= 1
    ensures Scaled(m, unit) <= Scaled(n, unit)
  {
  }

  lemma ScaleMonotone(x: real, y: real, p: real)
    requires x <= y && p > 0.0
    ensures x * p <= y * p
  {
  }

  /** The non-negative case of `toFixed`: the nearest multiple of `1 / unit`, halves rounded up. */
  function FixedMagnitude(y: real, unit: nat): (r: real)
    requires y >= 0.0 && unit >= 1
    ensures r >= 0.0
  {
    ScaledSign(Round(y * unit as real), unit);
    Scaled(Round(y * unit as real), unit)
  }

  /**
   * `Number(x.toFixed(digits))`: the multiple of `10^-digits` nearest to `x`,
   * halves rounded away from zero.
   */
  function ToFixed(x: real, digits: nat): (r: real)
    ensures x >= 0.0 ==> r >= 0.0
    ensures x <= 0.0 ==> r <= 0.0
  {
    SignedFixed(x, Pow10(digits))
  }

  /** The sign of `x` applied to the rounding of its magnitude to a multiple of `1 / unit`. */
  function SignedFixed(x: real, unit: nat): real
    requires unit >= 1
  {
    if x < 0.0 then -FixedMagnitude(-x, unit) else FixedMagnitude(x, unit)
  }

  /** The magnitude moves a value by at most half a unit. */
  lemma FixedMagnitudeClose(y: real, unit: nat)
    requires y >= 0.0 && unit >= 1
    ensures -0.5 <= (FixedMagnitude(y, unit) - y) * unit as real <= 0.5
  {
    var n := Round(y * unit as real);
    ScaledBack(n, unit);
    assert FixedMagnitude(y, unit) * unit as real == n as real;
  }

  /** Half a unit of the last of `digits` decimal places. */
  function HalfUnit(digits: nat): (h: real)
    ensures 0.0 < h <= 0.5
  {
    0.5 / Pow10(digits) as real
  }

  /** `toFixed` moves a value by at most half a unit of the last place. */
  lemma ToFixedClose(x: real, digits: nat)
    ensures -HalfUnit(digits) <= ToFixed(x, digits) - x <= HalfUnit(digits)
  {
    var unit := Pow10(digits);
    assert ToFixed(x, digits) == SignedFixed(x, unit);
    SignedFixedClose(x, unit);
    DivideBound(SignedFixed(x, unit) - x, unit as real);
  }

  /** A difference whose scaled value is within half is within half a unit. */
  lemma DivideBound(d: real, u: real)
    requires u >= 1.0 && -0.5 <= d * u <= 0.5
    ensures -(0.5 / u) <= d <= 0.5 / u
  {
  }

  lemma SignedFixedClose(x: real, unit: nat)
    requires unit >= 1
    ensures -0.5 <= (SignedFixed(x, unit) - x) * unit as real <= 0.5
  {
    if x < 0.0 {
      FixedMagnitudeClose(-x, unit);
      CloseNegated(-FixedMagnitude(-x, unit), FixedMagnitude(-x, unit), x, unit as real);
    } else {
      FixedMagnitudeClose(x, unit);
    }
  }

  /** A multiple of `1 / unit` is its own rounding. */
  lemma FixedOfScaled(n: nat, unit: nat)
    requires unit >= 1
    ensures FixedMagnitude(Scaled(n, unit), unit) == Scaled(n, unit)
  {
    ScaledSign(n, unit);
    ScaledBack(n, unit);
    RoundUnique(n as real, n);
  }

  /** Negating a rounding of `-x` keeps it within the same distance of `x`. */
  lemma CloseNegated(t: real, m: real, x: real, u: real)
    requires t == -m && -0.5 <= (m - -x) * u <= 0.5
    ensures -0.5 <= (t - x) * u <= 0.5
  {
    assert (t - x) * u == -((m - -x) * u);
  }

  lemma FixedMagnitudeIs(y: real, unit: nat)
    requires y >= 0.0 && unit >= 1
    ensures FixedMagnitude(y, unit) == Scaled(Round(y * unit as real), unit)
  {
  }

  /** Rounding an already rounded value changes nothing. */
  lemma ToFixedIdempotent(x: real, digits: nat)
    ensures ToFixed(ToFixed(x, digits), digits) == ToFixed(x, digits)
  {
    var unit := Pow10(digits);
    var y := if x < 0.0 then -x else x;
    var n := Round(y * unit as real);
    FixedMagnitudeIs(y, unit);
    FixedOfScaled(n, unit);
    ScaledSign(n, unit);
  }

  lemma BelowScaled(y: real, unit: nat, bound: int)
    requires unit >= 1 && y <= Scaled(bound, unit)
    ensures y * unit as real <= bound as real
  {
    ScaleMonotone(y, Scaled(bound, unit), unit as real);
    ScaledBack(bound, unit);
  }

  lemma FixedMagnitudeBelow(y: real, unit: nat, bound: int)
    requires unit >= 1 && 0.0 <= y <= Scaled(bound, unit)
    ensures FixedMagnitude(y, unit) <= Scaled(bound, unit)
  {
    BelowScaled(y, unit, bound);
    RoundMonotone(y * unit as real, bound as real);
    RoundUnique(bound as real, bound);
    ScaledMonotone(Round(y * unit as real), bound, unit);
  }

  /** Rounding to `digits` places keeps a value under any bound that is itself such a multiple. */
  lemma ToFixedBelow(x: real, digits: nat, bound: int)
    requires 0.0 <= x <= Scaled(bound, Pow10(digits))
    ensures ToFixed(x, digits) <= Scaled(bound, Pow10(digits))
  {
    FixedMagnitudeBelow(x, Pow10(digits), bound);
  }

  /** A whole number is its own `toFixed`. */
  lemma ToFixedWhole(n: nat, digits: nat)
    ensures ToFixed(n as real, digits) == n as real
  {
    var unit := Pow10(digits);
    var m := n * unit;
    ProductAsReal(n, unit);
    RoundUnique(n as real * unit as real, m);
    assert FixedMagnitude(n as real, unit) == Scaled(m, unit);
    ScaledProduct(n, unit);
  }

  lemma ProductAsReal(a: int, b: int)
    ensures (a * b) as real == a as real * b as real
  {
  }

  lemma ScaledProduct(n: int, unit: nat)
    requires unit >= 1
    ensures Scaled(n * unit, unit) == n as real
  {
    ProductAsReal(n, unit);
  }

  /** On non-negative values `toFixed` never reverses an order. */
  lemma ToFixedMonotone(x: real, y: real, digits: nat)
    requires 0.0 <= x <= y
    ensures ToFixed(x, digits) <= ToFixed(y, digits)
  {
    var unit := Pow10(digits);
    FixedMagnitudeIs(x, unit);
    FixedMagnitudeIs(y, unit);
    ScaleMonotone(x, y, unit as real);
    RoundMonotone(x * unit as real, y * unit as real);
    ScaledMonotone(Round(x * unit as real), Round(y * unit as real), unit);
  }

  /** A real with no fractional part. */
  predicate IsWhole(v: real) {
    v.Floor as real == v
  }

  /** `toFixed(digits)` lands on the grid of `10^-digits`: scaled back up, it is a whole number. */
  lemma ToFixedOnGrid(x: real, digits: nat)
    ensures IsWhole(ToFixed(x, digits) * Pow10(digits) as real)
  {
    var unit := Pow10(digits);
    var y := if x < 0.0 then -x else x;
    var n := Round(y * unit as real);
    FixedMagnitudeIs(y, unit);
    ScaledBack(n, unit);
    assert ToFixed(x, digits) == SignedFixed(x, unit);
    var m := if x < 0.0 then -n else n;
    assert ToFixed(x, digits) * unit as real == m as real;
    assert IsWhole(m as real);
    assert ToFixed(x, digits) * Pow10(digits) as real == m as real;
  }

  /** With no decimals, `toFixed` of a non-negative value is `Math.round`. */
  lemma ToFixedNoDigits(x: real)
    requires x >= 0.0
    ensures ToFixed(x, 0) == Round(x) as real
  {
    assert Pow10(0) == 1;
    assert x * 1 as real == x;
    assert FixedMagnitude(x, 1) == Scaled(Round(x), 1);
  }
}
