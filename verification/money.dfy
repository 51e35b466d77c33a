/** Monetary arithmetic of the generator: uniform draws, clamping and rounding to cents.
    Amounts are integers counting cents; a draw `u` stands for one call of `random.random()`. */
module Money {

  /** An amount in cents; two fractional digits are built into the type. */
  type Cents = int

  /** A unit draw: the value `random.random()` returned, widened to the closed interval. */
  predicate IsUnit(u: real) {
    0.0 <= u <= 1.0
  }

  /** `random.uniform(lo, hi)`, which CPython defines as `lo + (hi - lo) * random()`. */
  function Uniform(lo: real, hi: real, u: real): (r: real)
    ensures lo <= hi && IsUnit(u) ==> lo <= r <= hi
    ensures u == 0.0 ==> r == lo
    ensures u == 1.0 ==> r == hi
  {
    UnitScale(hi - lo, u);
    lo + (hi - lo) * u
  }

  lemma UnitScale(w: real, u: real)
    ensures 0.0 <= w && IsUnit(u) ==> 0.0 <= w * u <= w
  {
    if 0.0 <= w && IsUnit(u) {
      assert w * u <= w * 1.0;
    }
  }

  /** `round(x, 2)` as a count of cents: the nearest cent, halves rounded up. */
  function RoundCents(x: real): (r: Cents)
    ensures r as real - 0.5 <= x * 100.0 < r as real + 0.5
  {
    (x * 100.0 + 0.5).Floor
  }

  /** Rounding to cents keeps an amount inside any bounds that are whole cents. */
  lemma RoundCentsWithin(x: real, lo: Cents, hi: Cents)
    requires lo as real <= x * 100.0 <= hi as real
    ensures lo <= RoundCents(x) <= hi
  {
  }

  /** A value already in whole cents is left unchanged by rounding, so the second
      `round(amount, 2)` applied to a rounded amount changes nothing. */
  lemma RoundCentsExact(c: Cents)
    ensures RoundCents(c as real / 100.0) == c
  {
  }

  /** `max(lo, min(x, hi))`. */
  function Clamp(x: real, lo: real, hi: real): (r: real)
    ensures lo <= hi ==> lo <= r <= hi
    ensures lo <= x <= hi ==> r == x
    ensures r == x || r == lo || r == hi
    ensures x < lo ==> r == lo
    ensures lo <= hi && hi < x ==> r == hi
  {
    var m := if x < hi then x else hi;
    if lo < m then m else lo
  }
}
