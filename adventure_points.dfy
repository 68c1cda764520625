/**
 * Adventure-point costs of raising a rated skill, by improvement cost class.
 *
 * Each class fixes a base multiplier and the last rating whose step still
 * costs just that base. Beyond that rating every further step costs one base
 * more than the step before it. The module offers the activation cost, the
 * cost of a single step, and the signed cost of a whole rating range computed
 * in closed form (negative for a decrease, i.e. a refund).
 */
module AdventurePoints {
  import Triangular

  /** The five improvement cost classes. */
  datatype ImprovementCost = A | B | C | D | E

  /** The one failure: adventure points are not defined for negative ratings. */
  datatype Error = NegativeRating

  datatype Result<T> = Ok(value: T) | Err(error: Error)

  /** The base adventure points of a class; higher ratings multiply it. */
  function Base(ic: ImprovementCost): (base: nat)
    ensures base >= 1
  {
    match ic
    case A => 1
    case B => 2
    case C => 3
    case D => 4
    case E => 15
  }

  /**
   * The last rating whose step costs the same as the previous one: class E
   * stays flat two ratings longer than the other four classes.
   */
  function LastRatingOfConstantValue(ic: ImprovementCost): (last: nat)
    ensures last >= 12
    ensures last == 14 <==> ic == E
  {
    match ic
    case A | B | C | D => 12
    case E => 14
  }

  /**
   * The adventure points for the single step that raises a rating to `rating`:
   * the base up to the last rating of constant value, then one base more for
   * every rating beyond it.
   */
  function StepCost(ic: ImprovementCost, rating: nat): (ap: int)
    ensures ap >= Base(ic)
    ensures rating <= LastRatingOfConstantValue(ic) ==> ap == Base(ic)
    ensures ap % Base(ic) == 0
  {
    var base := Base(ic);
    var lastRatingOfSameValue := LastRatingOfConstantValue(ic);
    base * (if rating < lastRatingOfSameValue then 1 else rating - lastRatingOfSameValue + 1)
  }

  /**
   * The adventure points for activating a skill of class `ic`: a positive
   * amount, as much as the flat step to rating 0.
   */
  function AdventurePointsForActivation(ic: ImprovementCost): (ap: nat)
    ensures ap >= 1
    ensures ap == StepCost(ic, 0)
  {
    Base(ic)
  }

  /** `StepCost` behind the guard against negative ratings. */
  function AdventurePointsForRating(ic: ImprovementCost, rating: int): (r: Result<int>)
    ensures r.Err? <==> rating < 0
    ensures r.Ok? ==> r.value == StepCost(ic, rating) && r.value >= Base(ic)
  {
    if rating < 0 then Err(NegativeRating) else Ok(StepCost(ic, rating))
  }

  /** The smaller of two numbers. */
  function Min(a: int, b: int): int
  {
    if a <= b then a else b
  }

  /**
   * The unsigned closed-form cost of the range from `min` to `max`: a flat
   * part for the ratings still on the plateau and a triangular-number part for
   * those past it. The plateau size `last - min` is not clamped at zero.
   */
  function TotalCost(ic: ImprovementCost, min: nat, max: nat): (totalCost: int)
    requires min <= max
    ensures totalCost >= 0
  {
    var base := Base(ic);
    var lastRatingOfSameValue := LastRatingOfConstantValue(ic);
    var size := max - min;
    var constantRangeSize := Min(size, lastRatingOfSameValue - min);
    var variableRangeSize: nat := size - constantRangeSize;
    var constantCost := base * constantRangeSize;
    var variableCost := base * (((variableRangeSize + 1) * (variableRangeSize + 2)) / 2 - 1);
    Triangular.VariableTermIsMultiplierSum(variableRangeSize);
    Triangular.MultiplierSumExceeds(variableRangeSize);
    Triangular.ScaledSum(base, constantRangeSize, Triangular.MultiplierSum(variableRangeSize));
    constantCost + variableCost
  }

  /**
   * The change in spent adventure points when moving a rating from `from` to
   * `to`: positive for an increase, a refund (never below zero in magnitude)
   * for a decrease.
   */
  function AdventurePointsForRatingRange(ic: ImprovementCost, from: int, to: int): (r: Result<int>)
    ensures r.Err? <==> from < 0 || to < 0
    ensures r.Ok? && from <= to ==> r.value >= 0
    ensures r.Ok? && to < from ==> r.value <= 0
  {
    if from < 0 || to < 0 then Err(NegativeRating)
    else
      var (min, max, negate) := if from <= to then (from, to, false) else (to, from, true);
      var totalCost := TotalCost(ic, min, max);
      Ok(totalCost * (if negate && totalCost > 0 then -1 else 1))
  }
}
