/**
 * A corrected closed form for the range cost that also holds when the range
 * starts above the last rating of constant value: the flat part is clamped at
 * zero, and the escalating part starts at the multiplier of the first step
 * past the start instead of always at 2.
 */
module CorrectedRange {
  import opened AdventurePoints
  import opened RatingRange
  import Triangular

  /** The larger of two numbers. */
  function Max(a: int, b: int): int
  {
    if a <= b then b else a
  }

  /**
   * The unsigned cost from `min` to `max`: one base per plateau step, then
   * the multipliers `offset + 2 .. offset + variableRangeSize + 1`. When the
   * range starts on the plateau it is the original closed form.
   */
  function CorrectedTotalCost(ic: ImprovementCost, min: nat, max: nat): (totalCost: int)
    requires min <= max
    ensures min <= LastRatingOfConstantValue(ic) ==> totalCost == TotalCost(ic, min, max)
  {
    var base := Base(ic);
    var lastRatingOfSameValue := LastRatingOfConstantValue(ic);
    var size := max - min;
    var constantRangeSize := Max(0, Min(size, lastRatingOfSameValue - min));
    var variableRangeSize: nat := size - constantRangeSize;
    var offset: nat := Max(0, min - lastRatingOfSameValue);
    var constantCost := base * constantRangeSize;
    var variableCost := base * (Triangular.VariableTerm(offset + variableRangeSize) - Triangular.VariableTerm(offset));
    Triangular.VariableTermIsMultiplierSum(0);
    constantCost + variableCost
  }

  /** Starting above the plateau, the corrected form is a difference of multiplier sums. */
  lemma CorrectedAbovePlateau(ic: ImprovementCost, lo: nat, hi: nat)
    requires LastRatingOfConstantValue(ic) < lo <= hi
    ensures CorrectedTotalCost(ic, lo, hi)
         == Base(ic) * Triangular.MultiplierSum(hi - LastRatingOfConstantValue(ic))
          - Base(ic) * Triangular.MultiplierSum(lo - LastRatingOfConstantValue(ic))
  {
    var last, b := LastRatingOfConstantValue(ic), Base(ic);
    var x: int, y: int := Triangular.MultiplierSum(hi - last), Triangular.MultiplierSum(lo - last);
    assert CorrectedTotalCost(ic, lo, hi)
        == b * 0 + b * (Triangular.VariableTerm(hi - last) - Triangular.VariableTerm(lo - last));
    Triangular.VariableTermIsMultiplierSum(hi - last);
    Triangular.VariableTermIsMultiplierSum(lo - last);
    Triangular.ScaledSum(b, x, -y);
  }

  /** The corrected closed form is the step sum for every range. */
  lemma CorrectedTotalCostIsStepSum(ic: ImprovementCost, lo: nat, hi: nat)
    requires lo <= hi
    ensures CorrectedTotalCost(ic, lo, hi) == StepSum(ic, lo, hi)
  {
    var last, b := LastRatingOfConstantValue(ic), Base(ic);
    if lo <= last {
      TotalCostIsStepSum(ic, lo, hi);
    } else {
      CorrectedAbovePlateau(ic, lo, hi);
      StepSumSplit(ic, last, lo, hi);
      StepSumPastPlateau(ic, lo);
      StepSumPastPlateau(ic, hi);
    }
  }

  /**
   * The range cost with the corrected closed form: the signed step sum for
   * every pair of non-negative ratings, and the same error as before.
   */
  function CorrectedAdventurePointsForRatingRange(ic: ImprovementCost, from: int, to: int): (r: Result<int>)
    ensures r.Err? <==> from < 0 || to < 0
    ensures r.Ok? ==> r.value == if from <= to then StepSum(ic, from, to) else -StepSum(ic, to, from)
  {
    if from < 0 || to < 0 then Err(NegativeRating)
    else
      var (min, max, negate) := if from <= to then (from, to, false) else (to, from, true);
      var totalCost := CorrectedTotalCost(ic, min, max);
      CorrectedTotalCostIsStepSum(ic, min, max);
      assert totalCost == StepSum(ic, min, max);
      Ok(totalCost * (if negate && totalCost > 0 then -1 else 1))
  }

  /** The corrected form agrees with the original wherever the original is right. */
  lemma CorrectedAgreesWithOriginal(ic: ImprovementCost, from: nat, to: nat)
    requires Min(from, to) <= LastRatingOfConstantValue(ic)
    ensures CorrectedAdventurePointsForRatingRange(ic, from, to) == AdventurePointsForRatingRange(ic, from, to)
  {
    if from <= to {
      RangeCostIsStepSum(ic, from, to);
    } else {
      RangeRefundIsStepSum(ic, from, to);
    }
  }

  /** With the correction, staying at any rating costs nothing and swapping endpoints always negates. */
  lemma CorrectedEmptyAndAntisymmetric(ic: ImprovementCost, a: nat, b: nat)
    ensures CorrectedAdventurePointsForRatingRange(ic, a, a) == Ok(0)
    ensures CorrectedAdventurePointsForRatingRange(ic, a, b).value
         == -CorrectedAdventurePointsForRatingRange(ic, b, a).value
  {
  }

  /** The class-A ranges above the plateau, now priced as their steps. */
  lemma CorrectedCounterexamples()
    ensures CorrectedAdventurePointsForRatingRange(A, 13, 13) == Ok(0)
    ensures CorrectedAdventurePointsForRatingRange(A, 13, 14) == Ok(3)
    ensures CorrectedAdventurePointsForRatingRange(A, 14, 13) == Ok(-3)
  {
  }
}
