/** Exact arithmetic used by every summary: JavaScript's `Math.round` on exact
    reals, and the period-over-period change rate with its zero-base rule. */
module Numeric {

  function Abs(x: real): real { if x < 0.0 then -x else x }

  function Min(a: int, b: int): int { if a <= b then a else b }

  /** `Math.round`: the nearest integer, a half rounded towards +infinity. */
  function Round(x: real): (r: int)
    ensures x - 0.5 < r as real <= x + 0.5
  {
    (x + 0.5).Floor
  }

  /** `r` is what `Math.round` gives for `x`: the one integer in the half-open interval
      (x - 1/2, x + 1/2], so a tie at .5 goes up. */
  predicate RoundsTo(r: int, x: real) {
    x - 0.5 < r as real <= x + 0.5
  }

  /** `RoundsTo` pins the rounded value exactly: it holds of `Round(x)` and of nothing else. */
  lemma RoundsToRound(r: int, x: real)
    ensures RoundsTo(r, x) <==> r == Round(x)
  {
    if RoundsTo(r, x) {
      var d := r - Round(x);
      assert -1.0 < d as real < 1.0;
    }
  }

  /** The change rate in percent. From a positive base it is the relative change;
      from a zero (or negative) base it is +100 when the new value is positive and 0 otherwise. */
  function ChangeRate(before: real, after: real): (rate: real)
    ensures before > 0.0 ==> rate * before == (after - before) * 100.0
    ensures before <= 0.0 ==> rate == (if after > 0.0 then 100.0 else 0.0)
  {
    if before > 0.0 then (after - before) / before * 100.0
    else if after > 0.0 then 100.0
    else 0.0
  }

  /** The variant used for a mid category in the detailed summary: a zero base gives 0
      even when the new value is positive. */
  function ChangeRateOrZero(before: real, after: real): (rate: real)
    ensures before > 0.0 ==> rate == ChangeRate(before, after)
    ensures before <= 0.0 ==> rate == 0.0
  {
    if before > 0.0 then (after - before) / before * 100.0 else 0.0
  }

  /** From a positive base the rate has the sign of the change. */
  lemma ChangeRateSign(before: real, after: real)
    requires before > 0.0
    ensures ChangeRate(before, after) > 0.0 <==> after > before
    ensures ChangeRate(before, after) < 0.0 <==> after < before
    ensures ChangeRate(before, after) == 0.0 <==> after == before
  {
    var rate := ChangeRate(before, after);
    assert rate * before == (after - before) * 100.0;
    if rate > 0.0 { assert rate * before > 0.0; }
    if rate < 0.0 { assert rate * before < 0.0; }
    if after > before { assert rate * before > 0.0; }
    if after < before { assert rate * before < 0.0; }
  }

  /** The worked examples of the rule: 0 -> 500 is +100%, 0 -> 0 is 0%, 200 -> 150 is -25%. */
  lemma ChangeRateExamples()
    ensures ChangeRate(0.0, 500.0) == 100.0
    ensures ChangeRate(0.0, 0.0) == 0.0
    ensures ChangeRate(200.0, 150.0) == -25.0
  {
  }

  /** A change amount is `Math.round` of the unrounded difference: the integer nearest to it,
      a half rounded up. It is within one of the difference of the rounded figures, and not
      always equal to it. */
  function Change(before: real, after: real): (change: int)
    ensures -1 <= change - (Round(after) - Round(before)) <= 1
    ensures RoundsTo(change, after - before)
  {
    Round(after - before)
  }

  lemma ChangeIsNotDifferenceOfRounded()
    ensures Change(0.4, 0.6) == 0 && Round(0.6) - Round(0.4) == 1
  {
    assert Round(0.2) == 0;
  }

  /** `approx` is within `n` halves of `exact`: as far as `n` roundings to the nearest
      integer can move a sum. */
  predicate WithinHalves(approx: real, exact: real, n: int) {
    Abs(approx - exact) * 2.0 <= n as real
  }

  /** Rounding each term moves a sum of `n` terms by at most `n / 2`. */
  lemma RoundingDrift(x: real, y: real, acc: real, n: nat)
    requires WithinHalves(acc, x, n)
    ensures WithinHalves(acc + Round(y) as real, x + y, n + 1)
  {
  }

  /** Replacing a part of a sum by a rounding of it costs one more half. */
  lemma ReplaceByRounded(approx: real, exact: real, n: int, part: real, rounded: real)
    requires WithinHalves(approx, exact, n)
    requires Abs(rounded - part) <= 0.5
    ensures WithinHalves(approx - part + rounded, exact, n + 1)
  {
  }
}
