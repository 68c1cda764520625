# Adventure-point improvement costs

A model of the pricing module of the `adventure-points` package. The module computes how
many adventure points it costs to raise a rated skill in a tabletop role-playing game.
A skill has one of five improvement cost classes, `A` to `E`. Each class fixes two constants:

- a **base** multiplier (1, 2, 3, 4, 15);
- the **last rating of constant value** (12 for `A`–`D`, 14 for `E`).

Up to that rating, a step costs `base`. Each rating beyond it costs one `base` more than the
rating before it. The module offers three operations:

- the activation cost;
- the cost of a single step;
- the signed cost of moving a rating from `from` to `to`. This is computed in closed form,
  with a flat part plus a triangular-number part. A decrease gives a negative result, i.e. a refund.

Files:

- `adventure_points.dfy`, module `AdventurePoints`: the cost classes, the two constant lookups
  and the three operations. The error for a negative rating is `Result.Err(NegativeRating)`.
  Each operation is split into its guard and its arithmetic: `StepCost` is the single-step
  formula and `TotalCost` the unsigned closed form over `min <= max`.
- `triangular.dfy`, module `Triangular`: the multiplier sum `2 + 3 + … + (v + 1)` and the
  closed form's term `VariableTerm(v) = ((v + 1) * (v + 2)) / 2 - 1`. It proves that the term is
  exact, i.e. the product is even, and that it equals this sum. `TotalCost` writes the term
  inline, as the source does; the corrected form calls `VariableTerm`.
- `rating_range.dfy`, module `RatingRange`: `StepSum` is the reference definition, the sum of
  step costs over `(lo, hi]`. The module relates the closed form to it and proves the sign,
  empty-range and antisymmetry properties, plus the expected values of the test suite.
- `corrected_range.dfy`, module `CorrectedRange`: a corrected closed form that equals the step
  sum for every range (see Findings).

Ratings and costs are mathematical integers. JavaScript's `/` in the closed form is exact
because the product it halves is always even, so Dafny's `/` computes the same value.

## Model

| member | source | states |
|---|---|---|
| `AdventurePoints.Base` | src/improvementCost.ts:8-23 | every class has a positive base multiplier |
| `RatingRange.ClassConstants` | src/improvementCost.ts:8-40 | the bases are A=1, B=2, C=3, D=4, E=15; the last rating of constant value is 12 for A–D and 14 for E |
| `AdventurePoints.LastRatingOfConstantValue` | src/improvementCost.ts:28-40 | the last rating of constant value is at least 12, and it is 14 exactly for class E |
| `AdventurePoints.AdventurePointsForActivation` | src/improvementCost.ts:45-46 | activation costs a positive amount, equal to the flat step cost at rating 0 |
| `RatingRange.ActivationCostIsBase` | src/improvementCost.ts:45-46 | activation costs the class's base (1, 2, 3, 4, 15), which is also the step cost at rating 0 |
| `AdventurePoints.StepCost` | src/improvementCost.ts:68-71 | a step never costs less than the base, costs exactly the base up to the last rating of constant value, and is a whole multiple of the base |
| `AdventurePoints.AdventurePointsForRating` | src/improvementCost.ts:60-72 | fails with the negative-rating error exactly when the rating is negative; otherwise gives the step cost, which is at least the base |
| `RatingRange.StepCostMonotone` | src/improvementCost.ts:71 | step cost is non-decreasing in the rating |
| `RatingRange.StepCostRisesByBase` | src/improvementCost.ts:25-26 | from the last rating of constant value on, each step costs exactly one base more than the previous one |
| `RatingRange.StepCostPastPlateau` | src/improvementCost.ts:71 | from the last rating of constant value on, a step costs `base * (rating - last + 1)` |
| `RatingRange.StepCostExamples` | test/improvementCost.ts:20-36 | the single-step costs the test suite expects (A 13→2, D 14→12, E 16→45, …), and the error for a negative rating |
| `Triangular.ProductIsTwiceSum` | src/improvementCost.ts:102 | `(v+1)(v+2) = 2 * (2 + 3 + … + (v+1) + 1)` |
| `Triangular.VariableTermIsMultiplierSum` | src/improvementCost.ts:102 | `(v+1)(v+2)` is even, so halving never truncates, and `((v+1)(v+2))/2 - 1 = 2 + 3 + … + (v+1)` |
| `Triangular.MultiplierSumExceeds` | src/improvementCost.ts:102 | the variable term is at least `v`, and greater than `v` when `v > 0` |
| `AdventurePoints.TotalCost` | src/improvementCost.ts:92-104 | the unsigned closed form is never negative, for every range including those above the plateau |
| `AdventurePoints.AdventurePointsForRatingRange` | src/improvementCost.ts:83-108 | fails exactly when either rating is negative; otherwise the result is non-negative for `from <= to` and non-positive for `from > to`, for all inputs |
| `RatingRange.StepSum` | src/improvementCost.ts:48-51 | the sum of step costs over `(lo, hi]` is at least the number of steps |
| `RatingRange.StepSumSplit` | src/improvementCost.ts:48-51 | the step sum over a range is the sum over its two halves |
| `RatingRange.StepSumOnPlateau` | src/improvementCost.ts:71 | up to the last rating of constant value, a range costs one base per step |
| `RatingRange.StepSumPastPlateau` | src/improvementCost.ts:71 | from the last rating of constant value to `hi`, the steps cost `base * (2 + … + (hi - last + 1))` |
| `RatingRange.TotalCostOnPlateau` | src/improvementCost.ts:97-104 | for a range that ends on the plateau, the closed form is `base * size` |
| `RatingRange.TotalCostReachingPastPlateau` | src/improvementCost.ts:97-104 | for a range that ends past the plateau, the closed form is `base * (last - min)` plus `base` times the multiplier sum up to `max - last` |
| `RatingRange.TotalCostIsStepSum` | src/improvementCost.ts:97-104 | when the range starts at or below the last rating of constant value, the closed form equals the sum of step costs |
| `RatingRange.RangeCostFromTotal` | src/improvementCost.ts:95-107 | the range cost is the unsigned closed form over `(min, max]`, negated for a decrease |
| `RatingRange.RangeCostIsStepSum` | src/improvementCost.ts:74-107 | raising a rating from `from` at or below the last rating of constant value to `to` costs the step sum over `(from, to]` |
| `RatingRange.RangeRefundIsStepSum` | src/improvementCost.ts:74-107 | lowering a rating to `to` at or below the last rating of constant value gives back the step sum over `(to, from]`, as a negative result |
| `RatingRange.EmptyRangeCostsNothing` | src/improvementCost.ts:97-104 | `rangeCost(n, n)` is 0 if and only if `n` is at or below the last rating of constant value |
| `RatingRange.RangeCostAntisymmetric` | src/improvementCost.ts:95-107 | `rangeCost(a, b) = -rangeCost(b, a)` if and only if `a != b` or `a` is at or below the last rating of constant value |
| `RatingRange.ClosedFormOvershoot` | src/improvementCost.ts:98 | for a range starting at `lo` above the plateau, the closed form exceeds the step sum by exactly `base * (MultiplierSum(d) - d)` with `d = lo - last` |
| `RatingRange.AboveBoundCounterexamples` | src/improvementCost.ts:97-104 | for class A, 13→13 costs 1 where the steps sum to 0, and 13→14 costs 4 where the single step costs 3 |
| `RatingRange.RangeCostExamples` | test/improvementCost.ts:41-53 | the range costs the test suite expects for empty ranges (0) and increases (A 1→15 = 20, D 1→15 = 80, E 1→16 = 270, …) |
| `RatingRange.RangeRefundExamples` | test/improvementCost.ts:55-61 | the negative results the test suite expects for decreases (A 15→1 = -20, D 15→1 = -80, E 16→1 = -270, …), and the error for a negative endpoint in either position |
| `CorrectedRange.CorrectedTotalCost` | src/improvementCost.ts:97-104 | the corrected closed form, with the flat part clamped at zero and the escalating part offset, equals the original when the range starts on the plateau |
| `CorrectedRange.CorrectedAbovePlateau` | src/improvementCost.ts:97-104 | above the plateau, the corrected closed form is `base` times a difference of two multiplier sums |
| `CorrectedRange.CorrectedTotalCostIsStepSum` | src/improvementCost.ts:97-104 | the corrected closed form equals the step sum for every range |
| `CorrectedRange.CorrectedAdventurePointsForRatingRange` | src/improvementCost.ts:83-108 | fails exactly when either rating is negative; otherwise it is the signed step sum over `(min, max]` for all inputs |
| `CorrectedRange.CorrectedAgreesWithOriginal` | src/improvementCost.ts:83-108 | the corrected range cost equals the original wherever `min(from, to)` is on the plateau |
| `CorrectedRange.CorrectedEmptyAndAntisymmetric` | src/improvementCost.ts:74-77 | with the correction, every empty range costs 0 and swapping the endpoints always negates the cost |
| `CorrectedRange.CorrectedCounterexamples` | src/improvementCost.ts:97-104 | with the correction, A 13→13 costs 0, 13→14 costs 3 and 14→13 costs -3 |

## Left out

- `assertExhaustive` (src/improvementCost.ts:1, 21, 38) is a helper from another package and is not part of this model. The `match` over the five-constructor datatype is exhaustive, so no sixth tag can reach a default branch.
- Negative zero (src/improvementCost.ts:106-107): the `totalCost > 0` guard is kept as written, but there is no `-0` among integers.
- Non-integer ratings, and integers beyond JavaScript's exact range: ratings and costs are unbounded integers. The error is raised only for negative ratings, as in the source.
- The doc comment at src/improvementCost.ts:51 refers to `calculateAdventurePointsFromImprovementCost`. That name does not exist in the module; the range operation is `getAdventurePointsForRatingRange`.
- `RatingRange.RangeCostIsStepSum`, `RatingRange.RangeRefundIsStepSum` and `RatingRange.TotalCostIsStepSum` hold only when the lower end of the range is at or below the last rating of constant value. The source promises more. The doc comment at src/improvementCost.ts:49-51 offers the range function for "going from and to an arbitrary rating". The comment at src/improvementCost.ts:75-77 describes a decrease as a refund. The test at test/improvementCost.ts:41-43 expects 0 for an empty rating range. The code does not deliver these above the bound. The model follows the code, and the gap is recorded under Findings.

## Findings

| source | as written | input that shows it | evidently intended | confidence | as-written member | corrected member |
|---|---|---|---|---|---|---|
| src/improvementCost.ts:98-102 | `constantRangeSize = min(size, last - min)` is not clamped at zero, and the variable part always starts at multiplier 2 | class A, from 13 to 13 gives 1; from 13 to 14 gives 4, while the one step 13→14 costs 3 | the signed sum of step costs over `(min, max]`, so 0 and 3 | high, not executed | `RatingRange.ClosedFormOvershoot` | `CorrectedRange.CorrectedAdventurePointsForRatingRange` |

Every tested range has its lower end at rating 1 or 5, at or below each class's last rating of
constant value, so the tests never reach this case. In the corrected form, the flat part is clamped at zero. The escalating part is
`VariableTerm(offset + v) - VariableTerm(offset)`, where `offset = max(0, min - last)`.
`CorrectedRange.CorrectedTotalCostIsStepSum` proves that this equals the step sum for every
range.
