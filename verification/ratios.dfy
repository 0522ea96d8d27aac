/** Percentages computed as `(part / whole) * 100`, in exact arithmetic. */
module Ratios {

  function Percent(part: nat, whole: nat): real
    requires whole > 0
  {
    (part as real / whole as real) * 100.0
  }

  /** `e` percent of `whole` is `part`. */
  predicate IsShareOf(e: real, part: nat, whole: nat) {
    e * (whole as real) == 100.0 * (part as real)
  }

  /** A share of a whole lies in [0, 100], and times the whole it is 100
      times the part. */
  lemma PercentRange(part: nat, whole: nat)
    requires part <= whole && whole > 0
    ensures 0.0 <= Percent(part, whole) <= 100.0
    ensures IsShareOf(Percent(part, whole), part, whole)
  {
    PercentBounds(part, whole);
    PercentTimesWhole(part, whole);
  }

  /** A share of a whole lies in [0, 100]; it is 100 exactly when the part is
      the whole, and 0 exactly when the part is empty. */
  lemma PercentBounds(part: nat, whole: nat)
    requires part <= whole && whole > 0
    ensures 0.0 <= Percent(part, whole) <= 100.0
    ensures Percent(part, whole) == 100.0 <==> part == whole
    ensures Percent(part, whole) == 0.0 <==> part == 0
  {
    var q := part as real / whole as real;
    assert q * (whole as real) == part as real;
    assert q <= 1.0 by {
      if q > 1.0 {
        assert q * (whole as real) > 1.0 * (whole as real);
      }
    }
    assert q == 1.0 ==> part == whole;
  }

  /** The share times the whole is 100 times the part. */
  lemma PercentTimesWhole(part: nat, whole: nat)
    requires whole > 0
    ensures Percent(part, whole) * (whole as real) == 100.0 * (part as real)
  {
    var q := part as real / whole as real;
    assert q * (whole as real) == part as real;
    assert (q * 100.0) * (whole as real) == (q * (whole as real)) * 100.0;
  }
}
