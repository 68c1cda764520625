/**
 * What the closed-form range cost means: the sum of the single-step costs it
 * replaces, its sign, its behaviour on empty ranges and under swapping the
 * endpoints, and the concrete values the system is known to produce.
 */
module RatingRange {
  import opened AdventurePoints
  import Triangular

  /** The reference definition: the sum of `StepCost(ic, k)` for `lo < k <= hi`. */
  function StepSum(ic: ImprovementCost, lo: nat, hi: nat): (sum: int)
    requires lo <= hi
    ensures sum >= hi - lo
    decreases hi - lo
  {
    if lo == hi then 0 else StepSum(ic, lo, hi - 1) + StepCost(ic, hi)
  }

  /** A step never costs less than any step to a lower rating. */
  lemma StepCostMonotone(ic: ImprovementCost, r1: nat, r2: nat)
    requires r1 <= r2
    ensures StepCost(ic, r1) <= StepCost(ic, r2)
  {
  }

  /** From the last rating of constant value on, each step costs exactly one base more. */
  lemma StepCostRisesByBase(ic: ImprovementCost, rating: nat)
    requires rating >= LastRatingOfConstantValue(ic)
    ensures StepCost(ic, rating + 1) == StepCost(ic, rating) + Base(ic)
  {
  }

  /** The closed form on a range that ends on the plateau: one base per step. */
  lemma TotalCostOnPlateau(ic: ImprovementCost, lo: nat, hi: nat)
    requires lo <= hi <= LastRatingOfConstantValue(ic)
    ensures TotalCost(ic, lo, hi) == Base(ic) * (hi - lo)
  {
    Triangular.VariableTermIsMultiplierSum(0);
  }

  /** Past the last rating of constant value, a step costs one base per rating beyond it, plus one. */
  lemma {:induction false} StepCostPastPlateau(ic: ImprovementCost, rating: nat)
    requires rating >= LastRatingOfConstantValue(ic)
    ensures StepCost(ic, rating) == Base(ic) * (rating - LastRatingOfConstantValue(ic) + 1)
    decreases rating
  {
    if rating > LastRatingOfConstantValue(ic) {
      StepCostPastPlateau(ic, rating - 1);
      StepCostRisesByBase(ic, rating - 1);
    }
  }

  /**
   * The closed form on a range that ends at or past the last rating of
   * constant value. When `lo` is above that rating, the flat part
   * `last - lo` is negative.
   */
  lemma TotalCostReachingPastPlateau(ic: ImprovementCost, lo: nat, hi: nat)
    requires lo <= hi && LastRatingOfConstantValue(ic) <= hi
    ensures TotalCost(ic, lo, hi)
         == Base(ic) * (LastRatingOfConstantValue(ic) - lo)
          + Base(ic) * Triangular.MultiplierSum(hi - LastRatingOfConstantValue(ic))
  {
    var v := hi - LastRatingOfConstantValue(ic);
    Triangular.ProductIsTwiceSum(v);
    assert ((v + 1) * (v + 2)) / 2 - 1 == Triangular.MultiplierSum(v);
  }

  /** Splitting a range at an intermediate rating splits its step sum. */
  lemma {:induction false} StepSumSplit(ic: ImprovementCost, lo: nat, mid: nat, hi: nat)
    requires lo <= mid <= hi
    ensures StepSum(ic, lo, hi) == StepSum(ic, lo, mid) + StepSum(ic, mid, hi)
    decreases hi - mid
  {
    if mid < hi {
      StepSumSplit(ic, lo, mid, hi - 1);
    }
  }

  /** On the plateau every step costs one base. */
  lemma {:induction false} StepSumOnPlateau(ic: ImprovementCost, lo: nat, hi: nat)
    requires lo <= hi <= LastRatingOfConstantValue(ic)
    ensures StepSum(ic, lo, hi) == Base(ic) * (hi - lo)
    decreases hi - lo
  {
    if lo < hi {
      StepSumOnPlateau(ic, lo, hi - 1);
      Triangular.ScaledSum(Base(ic), hi - 1 - lo, 1);
    }
  }

  /** Past the plateau the steps cost 2, 3, ... bases. */
  lemma {:induction false} StepSumPastPlateau(ic: ImprovementCost, hi: nat)
    requires LastRatingOfConstantValue(ic) <= hi
    ensures StepSum(ic, LastRatingOfConstantValue(ic), hi)
         == Base(ic) * Triangular.MultiplierSum(hi - LastRatingOfConstantValue(ic))
    decreases hi
  {
    var last := LastRatingOfConstantValue(ic);
    if last < hi {
      var b, v := Base(ic), hi - last;
      StepSumPastPlateau(ic, hi - 1);
      assert StepCost(ic, hi) == b * (v + 1);
      assert b * Triangular.MultiplierSum(v - 1) + b * (v + 1) == b * Triangular.MultiplierSum(v);
    }
  }

  /**
   * While the range starts on the plateau, the closed form is the step sum.
   */
  lemma TotalCostIsStepSum(ic: ImprovementCost, lo: nat, hi: nat)
    requires lo <= hi && lo <= LastRatingOfConstantValue(ic)
    ensures TotalCost(ic, lo, hi) == StepSum(ic, lo, hi)
  {
    var last := LastRatingOfConstantValue(ic);
    if hi <= last {
      TotalCostOnPlateau(ic, lo, hi);
      StepSumOnPlateau(ic, lo, hi);
    } else {
      TotalCostReachingPastPlateau(ic, lo, hi);
      StepSumSplit(ic, lo, last, hi);
      StepSumOnPlateau(ic, lo, last);
      StepSumPastPlateau(ic, hi);
    }
  }

  /** The range cost is the unsigned closed form, negated for a decrease. */
  lemma RangeCostFromTotal(ic: ImprovementCost, from: nat, to: nat)
    ensures AdventurePointsForRatingRange(ic, from, to)
         == Ok(if from <= to then TotalCost(ic, from, to) else -TotalCost(ic, to, from))
  {
  }

  /**
   * Raising a rating that starts on the plateau costs the sum of the step
   * costs it crosses.
   */
  lemma RangeCostIsStepSum(ic: ImprovementCost, from: nat, to: nat)
    requires from <= to && from <= LastRatingOfConstantValue(ic)
    ensures AdventurePointsForRatingRange(ic, from, to) == Ok(StepSum(ic, from, to))
  {
    RangeCostFromTotal(ic, from, to);
    TotalCostIsStepSum(ic, from, to);
  }

  /**
   * Lowering a rating to a target on the plateau refunds the sum of the step
   * costs between the two ratings.
   */
  lemma RangeRefundIsStepSum(ic: ImprovementCost, from: nat, to: nat)
    requires to < from && to <= LastRatingOfConstantValue(ic)
    ensures AdventurePointsForRatingRange(ic, from, to) == Ok(-StepSum(ic, to, from))
  {
    RangeCostFromTotal(ic, from, to);
    TotalCostIsStepSum(ic, to, from);
  }

  /**
   * Staying at a rating costs nothing exactly when that rating is on the
   * plateau; above it the closed form charges a positive amount.
   */
  lemma EmptyRangeCostsNothing(ic: ImprovementCost, n: nat)
    ensures AdventurePointsForRatingRange(ic, n, n) == Ok(0) <==> n <= LastRatingOfConstantValue(ic)
  {
    var last := LastRatingOfConstantValue(ic);
    if n <= last {
      RangeCostIsStepSum(ic, n, n);
    } else {
      TotalCostReachingPastPlateau(ic, n, n);
      Triangular.MultiplierSumExceeds(n - last);
      Triangular.ScaledSum(Base(ic), last - n, Triangular.MultiplierSum(n - last));
    }
  }

  /**
   * Swapping the endpoints negates the range cost, except for an empty range
   * above the plateau, whose closed-form cost is positive both ways.
   */
  lemma RangeCostAntisymmetric(ic: ImprovementCost, a: nat, b: nat)
    ensures AdventurePointsForRatingRange(ic, a, b).value == -AdventurePointsForRatingRange(ic, b, a).value
        <==> a != b || a <= LastRatingOfConstantValue(ic)
  {
    if a == b {
      EmptyRangeCostsNothing(ic, a);
    }
  }

  /**
   * Above the plateau the closed form overshoots the step sum by a fixed
   * positive amount that depends only on where the range starts.
   */
  lemma ClosedFormOvershoot(ic: ImprovementCost, lo: nat, hi: nat)
    requires LastRatingOfConstantValue(ic) < lo <= hi
    ensures var d := lo - LastRatingOfConstantValue(ic);
            TotalCost(ic, lo, hi) == StepSum(ic, lo, hi) + Base(ic) * (Triangular.MultiplierSum(d) - d)
    ensures TotalCost(ic, lo, hi) > StepSum(ic, lo, hi)
  {
    var last, b := LastRatingOfConstantValue(ic), Base(ic);
    var d := lo - last;
    TotalCostReachingPastPlateau(ic, lo, hi);
    StepSumSplit(ic, last, lo, hi);
    StepSumPastPlateau(ic, lo);
    StepSumPastPlateau(ic, hi);
    assert b * (last - lo) + b * Triangular.MultiplierSum(d) == b * (Triangular.MultiplierSum(d) - d);
    Triangular.MultiplierSumExceeds(d);
    Triangular.ScaledSum(b, 0, Triangular.MultiplierSum(d) - d);
  }

  /** Concrete ranges starting above the plateau of class A. */
  lemma AboveBoundCounterexamples()
    ensures AdventurePointsForRatingRange(A, 13, 13) == Ok(1) && StepSum(A, 13, 13) == 0
    ensures AdventurePointsForRatingRange(A, 13, 14) == Ok(4) && StepSum(A, 13, 14) == 3
  {
  }

  /** The class constants. */
  lemma ClassConstants()
    ensures Base(A) == 1 && Base(B) == 2 && Base(C) == 3 && Base(D) == 4 && Base(E) == 15
    ensures LastRatingOfConstantValue(A) == 12 && LastRatingOfConstantValue(B) == 12
    ensures LastRatingOfConstantValue(C) == 12 && LastRatingOfConstantValue(D) == 12
    ensures LastRatingOfConstantValue(E) == 14
  {
  }

  /** Activation costs the class's base, for every class. */
  lemma ActivationCostIsBase(ic: ImprovementCost)
    ensures AdventurePointsForActivation(ic) == Base(ic)
    ensures AdventurePointsForActivation(ic) == StepCost(ic, 0)
    ensures AdventurePointsForActivation(A) == 1 && AdventurePointsForActivation(B) == 2
    ensures AdventurePointsForActivation(C) == 3 && AdventurePointsForActivation(D) == 4
    ensures AdventurePointsForActivation(E) == 15
  {
  }

  /** Known single-step costs. */
  lemma StepCostExamples()
    ensures AdventurePointsForRating(A, 1) == Ok(1) && AdventurePointsForRating(A, 12) == Ok(1)
    ensures AdventurePointsForRating(A, 13) == Ok(2) && AdventurePointsForRating(A, 14) == Ok(3)
    ensures AdventurePointsForRating(A, 15) == Ok(4)
    ensures AdventurePointsForRating(D, 1) == Ok(4) && AdventurePointsForRating(D, 12) == Ok(4)
    ensures AdventurePointsForRating(D, 13) == Ok(8) && AdventurePointsForRating(D, 14) == Ok(12)
    ensures AdventurePointsForRating(D, 15) == Ok(16)
    ensures AdventurePointsForRating(E, 1) == Ok(15) && AdventurePointsForRating(E, 12) == Ok(15)
    ensures AdventurePointsForRating(E, 13) == Ok(15) && AdventurePointsForRating(E, 14) == Ok(15)
    ensures AdventurePointsForRating(E, 15) == Ok(30) && AdventurePointsForRating(E, 16) == Ok(45)
    ensures AdventurePointsForRating(A, -1) == Err(NegativeRating)
  {
  }

  /** Known range costs of empty ranges and increases. */
  lemma RangeCostExamples()
    ensures AdventurePointsForRatingRange(A, 1, 1) == Ok(0) && AdventurePointsForRatingRange(A, 5, 5) == Ok(0)
    ensures AdventurePointsForRatingRange(A, 1, 12) == Ok(11) && AdventurePointsForRatingRange(A, 1, 13) == Ok(13)
    ensures AdventurePointsForRatingRange(A, 1, 14) == Ok(16) && AdventurePointsForRatingRange(A, 1, 15) == Ok(20)
    ensures AdventurePointsForRatingRange(D, 1, 15) == Ok(80) && AdventurePointsForRatingRange(E, 1, 16) == Ok(270)
  {
    RangeCostFromTotal(A, 1, 1);
    TotalCostOnPlateau(A, 1, 1);
    RangeCostFromTotal(A, 5, 5);
    TotalCostOnPlateau(A, 5, 5);
    RangeCostFromTotal(A, 1, 12);
    TotalCostOnPlateau(A, 1, 12);
    RangeCostFromTotal(A, 1, 13);
    TotalCostReachingPastPlateau(A, 1, 13);
    RangeCostFromTotal(A, 1, 14);
    TotalCostReachingPastPlateau(A, 1, 14);
    RangeCostFromTotal(A, 1, 15);
    TotalCostReachingPastPlateau(A, 1, 15);
    RangeCostFromTotal(D, 1, 15);
    TotalCostReachingPastPlateau(D, 1, 15);
    RangeCostFromTotal(E, 1, 16);
    TotalCostReachingPastPlateau(E, 1, 16);
  }

  /** Known refunds for decreases, and the error for a negative endpoint. */
  lemma RangeRefundExamples()
    ensures AdventurePointsForRatingRange(A, 12, 1) == Ok(-11) && AdventurePointsForRatingRange(A, 13, 1) == Ok(-13)
    ensures AdventurePointsForRatingRange(A, 14, 1) == Ok(-16) && AdventurePointsForRatingRange(A, 15, 1) == Ok(-20)
    ensures AdventurePointsForRatingRange(D, 15, 1) == Ok(-80) && AdventurePointsForRatingRange(E, 16, 1) == Ok(-270)
    ensures AdventurePointsForRatingRange(A, -1, 3) == Err(NegativeRating)
    ensures AdventurePointsForRatingRange(A, 3, -1) == Err(NegativeRating)
  {
    RangeCostExamples();
    RangeCostFromTotal(A, 1, 12);
    RangeCostFromTotal(A, 12, 1);
    RangeCostFromTotal(A, 1, 13);
    RangeCostFromTotal(A, 13, 1);
    RangeCostFromTotal(A, 1, 14);
    RangeCostFromTotal(A, 14, 1);
    RangeCostFromTotal(A, 1, 15);
    RangeCostFromTotal(A, 15, 1);
    RangeCostFromTotal(D, 1, 15);
    RangeCostFromTotal(D, 15, 1);
    RangeCostFromTotal(E, 1, 16);
    RangeCostFromTotal(E, 16, 1);
  }
}
