/** `Math.round((part / whole) * 100)` with a zero whole giving 0, the rounding both
    attendance summaries use; computed exactly, rounding halves up. */
module Percent {

  function Percentage(part: nat, whole: nat): (p: nat)
    requires part <= whole
    ensures p <= 100
    ensures whole == 0 ==> p == 0
    ensures whole > 0 ==> 200 * part - whole < 2 * whole * p <= 200 * part + whole
  {
    if whole == 0 then 0
    else
      RoundingBounds(part, whole);
      (200 * part + whole) / (2 * whole)
  }

  lemma RoundingBounds(part: nat, whole: nat)
    requires part <= whole && whole > 0
    ensures var p := (200 * part + whole) / (2 * whole);
      0 <= p <= 100 && 200 * part - whole < 2 * whole * p <= 200 * part + whole
  {
    var p := (200 * part + whole) / (2 * whole);
    assert 2 * whole * p <= 200 * part + whole < 2 * whole * p + 2 * whole;
    if p > 100 {
      MulMono(2 * whole, 101, p);
    }
  }

  lemma MulMono(c: nat, x: nat, y: nat)
    requires x <= y
    ensures c * x <= c * y
  {
  }

  /** The rounding range pins the result down: no other number lies in it. */
  lemma {:induction false} PercentageUnique(part: nat, whole: nat, x: nat)
    requires part <= whole && whole > 0
    requires 200 * part - whole < 2 * whole * x <= 200 * part + whole
    ensures x == Percentage(part, whole)
  {
    var p := Percentage(part, whole);
    if x < p {
      MulMono(2 * whole, x + 1, p);
    } else if x > p {
      MulMono(2 * whole, p + 1, x);
    }
  }

  /** Everything present reads 100, nothing present reads 0. */
  lemma PercentageEnds(whole: nat)
    requires whole > 0
    ensures Percentage(whole, whole) == 100
    ensures Percentage(0, whole) == 0
  {
    PercentageUnique(whole, whole, 100);
    PercentageUnique(0, whole, 0);
  }

  /** Two of three present reads 67, one of eight reads 13 (12.5 rounds up). */
  lemma PercentageExamples()
    ensures Percentage(2, 3) == 67
    ensures Percentage(1, 8) == 13
  {
    PercentageUnique(2, 3, 67);
    PercentageUnique(1, 8, 13);
  }
}
