/** Exact decimals as reals, with half-up rounding to the 0.0001 grid and flooring to a step. */
module Decimals {
  const HALF_TICK: real := 0.00005

  function Abs(x: real): real {
    if x < 0.0 then -x else x
  }

  function Min(a: real, b: real): real {
    if b < a then b else a
  }

  function Max(a: real, b: real): real {
    if b > a then b else a
  }

  /** The nearest number of ticks, ties away from zero. */
  function Ticks(x: real): int {
    if x >= 0.0 then (x * 10000.0 + 0.5).Floor else -(-x * 10000.0 + 0.5).Floor
  }

  /** Quantising to four places, ties away from zero. */
  function HalfUp(x: real): real {
    Ticks(x) as real / 10000.0
  }

  predicate OnGrid(x: real) {
    (x * 10000.0).Floor as real == x * 10000.0
  }

  lemma TicksNearest(x: real)
    ensures x * 10000.0 - 0.5 <= Ticks(x) as real <= x * 10000.0 + 0.5
    ensures x >= 0.0 ==> Ticks(x) >= 0
    ensures x <= 0.0 ==> Ticks(x) <= 0
  {
  }

  lemma WholeOnGrid(n: int)
    ensures OnGrid(n as real / 10000.0)
  {
    assert n as real / 10000.0 * 10000.0 == n as real;
  }

  /** Rounding lands on the grid, moves a value by at most half a tick, and keeps its sign. */
  lemma HalfUpNearest(x: real)
    ensures OnGrid(HalfUp(x))
    ensures -HALF_TICK <= HalfUp(x) - x <= HALF_TICK
    ensures x >= 0.0 ==> HalfUp(x) >= 0.0
    ensures x <= 0.0 ==> HalfUp(x) <= 0.0
  {
    hide Ticks;
    TicksNearest(x);
    WholeOnGrid(Ticks(x));
  }

  /** Grid values are not moved. */
  lemma HalfUpOfGrid(x: real)
    requires OnGrid(x)
    ensures HalfUp(x) == x
  {
    var n := (x * 10000.0).Floor;
    if x >= 0.0 {
      assert (x * 10000.0 + 0.5).Floor == n;
    } else {
      assert -x * 10000.0 == (-n) as real;
      assert (-x * 10000.0 + 0.5).Floor == -n;
    }
  }

  /** Ties go away from zero, and a negative value is rounded as its opposite is. */
  lemma HalfUpTies(x: real)
    ensures x >= 0.0 ==> HalfUp(x) - x > -HALF_TICK
    ensures HalfUp(-x) == -HalfUp(x)
  {
    if x >= 0.0 { assert Ticks(x) as real > x * 10000.0 - 0.5; }
    assert Ticks(-x) == -Ticks(x) by { TicksOfOpposite(x); }
  }

  lemma TicksOfOpposite(x: real)
    ensures Ticks(-x) == -Ticks(x)
  {
  }

  lemma HalfUpMonotone(x: real, y: real)
    requires x <= y
    ensures HalfUp(x) <= HalfUp(y)
  {
    assert Ticks(x) <= Ticks(y);
  }

  /** Against a positive grid value, rounding falls strictly below only from more than half a
      tick below, and strictly above from half a tick above on. */
  lemma HalfUpAgainstGrid(x: real, e: real)
    requires OnGrid(e) && e > 0.0
    ensures HalfUp(x) < e <==> x < e - HALF_TICK
    ensures HalfUp(x) > e <==> x >= e + HALF_TICK
  {
    var n := (e * 10000.0).Floor;
    assert n >= 1;
    if x >= 0.0 {
      assert HalfUp(x) < e <==> (x * 10000.0 + 0.5).Floor < n;
      assert HalfUp(x) > e <==> (x * 10000.0 + 0.5).Floor > n;
    } else {
      TicksNearest(x);
    }
  }

  /** Only values from half a tick on are still positive after rounding. */
  lemma HalfUpPositive(x: real)
    ensures HalfUp(x) > 0.0 <==> x >= HALF_TICK
  {
    if x < HALF_TICK {
      assert Ticks(x) <= 0;
    } else {
      assert Ticks(x) >= 1;
    }
  }

  /** The largest multiple of a step not above a value, for non-negative values. */
  function FloorToStep(value: real, step: real): real
    requires value >= 0.0 && step > 0.0
  {
    (value / step).Floor as real * step
  }

  lemma DivMul(a: real, b: real)
    requires b != 0.0
    ensures a / b * b == a
  {
  }

  /** A quotient reaches a bound exactly when the numerator reaches that many denominators. */
  lemma QuotientAtLeast(a: real, b: real, t: real)
    requires b > 0.0
    ensures a / b >= t <==> a >= t * b
  {
    var q := a / b;
    DivMul(a, b);
    if q >= t { MulLess(t, q, b); } else { MulLess(q, t, b); }
  }

  lemma Distributes(k: real, a: real, b: real)
    ensures k * (a + b) == k * a + k * b
  {
  }

  lemma MulLess(a: real, b: real, c: real)
    requires c > 0.0
    ensures a <= b ==> a * c <= b * c
    ensures a < b ==> a * c < b * c
  {
  }

  /** A multiple, or a share, of an amount. */
  function Times(amount: real, factor: real): real {
    amount * factor
  }

  lemma TimesLess(amount: real, a: real, b: real)
    requires amount > 0.0
    ensures a <= b ==> Times(amount, a) <= Times(amount, b)
    ensures a < b ==> Times(amount, a) < Times(amount, b)
  {
    MulLess(a, b, amount);
  }

  lemma TimesNext(amount: real, a: real)
    ensures Times(amount, 0.0) == 0.0 && Times(amount, a + 1.0) == Times(amount, a) + amount
  {
  }

  lemma ScaledFloorFits(value: real, step: real, q: real, k: real)
    requires step > 0.0 && Times(step, q) == value && 0.0 <= k <= q < k + 1.0
    ensures 0.0 <= Times(step, k) <= value < Times(step, k) + step
  {
    hide Times;
    TimesLess(step, 0.0, k);
    TimesLess(step, k, q);
    TimesLess(step, q, k + 1.0);
    TimesNext(step, k);
  }

  /** The floored value fits, and one step more does not. */
  lemma FloorToStepFits(value: real, step: real)
    requires value >= 0.0 && step > 0.0
    ensures 0.0 <= FloorToStep(value, step) <= value < FloorToStep(value, step) + step
  {
    DivMul(value, step);
    QuotientAtLeast(value, step, 0.0);
    var q := value / step;
    ScaledFloorFits(value, step, q, q.Floor as real);
  }

  /** Every multiple of the step that fits is at most the floored value. */
  lemma FloorToStepIsLargest(value: real, step: real, n: int)
    requires value >= 0.0 && step > 0.0 && n as real * step <= value
    ensures n as real * step <= FloorToStep(value, step)
  {
    DivMul(value, step);
    MultipleIsBelow(value, step, value / step, n);
  }

  lemma MultipleIsBelow(value: real, step: real, q: real, n: int)
    requires step > 0.0 && q * step == value && n as real * step <= value
    ensures n as real * step <= q.Floor as real * step
  {
    if n > q.Floor {
      MulLess(q, n as real, step);
    } else {
      MulLess(n as real, q.Floor as real, step);
    }
  }

  /** A relative difference does not depend on the unit of price. */
  lemma RatioScales(a: real, b: real, k: real)
    requires b > 0.0 && k > 0.0
    ensures k * b > 0.0 && (k * a - k * b) / (k * b) == (a - b) / b
  {
    var r := (a - b) / b;
    DivMul(a - b, b);
    assert k * b > 0.0 by { MulLess(0.0, b, k); }
    assert r * (k * b) == k * (r * b) == k * a - k * b;
    UniqueQuotient(k * a - k * b, k * b, r);
  }

  lemma UniqueQuotient(a: real, b: real, r: real)
    requires b != 0.0 && r * b == a
    ensures a / b == r
  {
  }
}
