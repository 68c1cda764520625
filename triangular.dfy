/**
 * Arithmetic behind the escalating part of an improvement cost.
 *
 * Past the last rating of constant value, the step to the j-th rating above
 * that bound costs `base * (j + 1)`, so crossing `v` such ratings costs
 * `base` times 2 + 3 + ... + (v + 1). The closed form computes that sum as
 * `((v + 1) * (v + 2)) / 2 - 1`; this module proves the two agree.
 */
module Triangular {

  /** The sum 2 + 3 + ... + (v + 1) of the multipliers of `v` escalating steps. */
  function MultiplierSum(v: nat): nat
  {
    if v == 0 then 0 else MultiplierSum(v - 1) + (v + 1)
  }

  /** The triangular-number term of the closed form for `v` escalating steps. */
  function VariableTerm(v: nat): int
  {
    ((v + 1) * (v + 2)) / 2 - 1
  }

  /** Twice the multiplier sum, plus two, is the product in the closed form. */
  lemma {:induction false} ProductIsTwiceSum(v: nat)
    ensures (v + 1) * (v + 2) == 2 * (MultiplierSum(v) + 1)
  {
    if v > 0 {
      ProductIsTwiceSum(v - 1);
      assert (v - 1 + 1) * (v - 1 + 2) == v * (v + 1);
      assert (v + 1) * (v + 2) == v * (v + 1) + 2 * (v + 1);
    }
  }

  /**
   * The triangular-number term of the closed form is an exact integer (the
   * product is even, so halving never truncates) and equals the multiplier sum.
   */
  lemma VariableTermIsMultiplierSum(v: nat)
    ensures ((v + 1) * (v + 2)) % 2 == 0
    ensures VariableTerm(v) == MultiplierSum(v)
  {
    ProductIsTwiceSum(v);
  }

  /** Each escalating step costs at least two multipliers' worth, so the sum outgrows `v`. */
  lemma {:induction false} MultiplierSumExceeds(v: nat)
    ensures MultiplierSum(v) >= v
    ensures v > 0 ==> MultiplierSum(v) > v
  {
    if v > 0 {
      MultiplierSumExceeds(v - 1);
    }
  }

  /** A base multiplies a sum term by term, and a positive base keeps its sign. */
  lemma ScaledSum(base: nat, x: int, y: int)
    ensures base * x + base * y == base * (x + y)
    ensures x + y >= 0 ==> base * x + base * y >= 0
    ensures base >= 1 && x + y > 0 ==> base * x + base * y > 0
  {
    var s := x + y;
    assert base * x + base * y == base * s;
    if base >= 1 && s > 0 {
      assert base * s >= s by {
        assert base * s - s == (base - 1) * s;
      }
    } else if s == 0 {
      assert base * s == 0;
    }
  }
}
