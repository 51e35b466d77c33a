/** `generate_amount` and the random pass's transaction-type rule, with every random draw
    passed in as a parameter. */
module Amounts {
  import opened Money
  import opened Catalog
  import opened Ledger

  /** Subcategories drawn near the top of their category's range. */
  predicate IsPremium(sub: string) {
    sub == "Rent" || sub == "Flight" || sub == "Hotel"
  }

  /** Subcategories drawn near the bottom of their category's range. */
  predicate IsBudget(sub: string) {
    sub == "Coffee Shop" || sub == "Fast Food" || sub == "Public Transport"
  }

  /** The subcategories with no dedicated branch, drawn log-normally and clamped. */
  predicate IsDefaultBranch(sub: string) {
    !IsPremium(sub) && !IsBudget(sub) && sub != "Monthly Salary"
  }

  /** `generate_amount(category, sub)` in cents. `u` is the unit draw behind whichever
      `random.uniform` the branch calls; `sample` is the `np.random.lognormal` draw of the
      default branch. Each branch's range survives rounding to cents. */
  function GenerateAmount(cat: Category, sub: string, u: real, sample: real): (r: Cents)
    requires IsUnit(u)
    ensures IsPremium(sub) && 0 <= cat.maxAmount ==>
              70 * cat.maxAmount <= r <= 100 * cat.maxAmount
    ensures !IsPremium(sub) && IsBudget(sub) && 0 <= cat.minAmount ==>
              100 * cat.minAmount <= r <= 300 * cat.minAmount
    ensures !IsPremium(sub) && !IsBudget(sub) && sub == "Monthly Salary" ==>
              5_000_000 <= r <= 7_000_000
    ensures IsDefaultBranch(sub) && cat.minAmount <= cat.maxAmount ==>
              100 * cat.minAmount <= r <= 100 * cat.maxAmount
    ensures IsDefaultBranch(sub) && cat.minAmount as real <= sample <= cat.maxAmount as real ==>
              r == RoundCents(sample)
  {
    var lo, hi := cat.minAmount as real, cat.maxAmount as real;
    var amount :=
      if IsPremium(sub) then Uniform(hi * 0.7, hi, u)
      else if IsBudget(sub) then Uniform(lo, lo * 3.0, u)
      else if sub == "Monthly Salary" then Uniform(50000.0, 70000.0, u)
      else Clamp(sample, lo, hi);
    RoundCents(amount)
  }

  /** The default branch clamps the sample to the category's range: a sample below it gives
      exactly the minimum, one above it exactly the maximum. */
  lemma DefaultBranchClamped(cat: Category, sub: string, u: real, sample: real)
    requires IsUnit(u) && IsDefaultBranch(sub)
    ensures sample < cat.minAmount as real ==> GenerateAmount(cat, sub, u, sample) == 100 * cat.minAmount
    ensures cat.minAmount <= cat.maxAmount && cat.maxAmount as real < sample ==>
              GenerateAmount(cat, sub, u, sample) == 100 * cat.maxAmount
  {
    RoundCentsExact(100 * cat.minAmount);
    RoundCentsExact(100 * cat.maxAmount);
  }

  /** A category whose branch ranges all fit inside its own amount range. */
  predicate WellScaled(cat: Category) {
    && 0 <= cat.minAmount
    && 3 * cat.minAmount <= cat.maxAmount
    && 10 * cat.minAmount <= 7 * cat.maxAmount
  }

  /** In a well-scaled category every branch other than `Monthly Salary` keeps the amount
      inside the category's own `amount_range`; so does `Monthly Salary` when that range
      covers 50000..70000. */
  lemma AmountWithinCategory(cat: Category, sub: string, u: real, sample: real)
    requires IsUnit(u) && WellScaled(cat)
    requires sub == "Monthly Salary" ==> cat.minAmount <= 50000 && 70000 <= cat.maxAmount
    ensures 100 * cat.minAmount <= GenerateAmount(cat, sub, u, sample) <= 100 * cat.maxAmount
  {
  }

  /** Every category of the source catalog is well scaled, and the Salary range covers the
      `Monthly Salary` branch. */
  lemma SourceCategoriesWellScaled()
    ensures forall k :: 0 <= k < |SourceCategories| ==> WellScaled(SourceCategories[k])
    ensures SourceCategories[7].minAmount <= 50000 && 70000 <= SourceCategories[7].maxAmount
  {
  }

  /** The random pass's transaction type. `roll` is the `random.random()` draw of the
      Investment rule and `transferCredit` the Debit-or-Credit choice of the
      Transfer rule. */
  function RandomKind(category: string, sub: string, roll: real, transferCredit: bool): (k: Kind)
    ensures category == "Salary" ==> k == Credit
    ensures category == "Investment" ==> (k == Debit <==> roll < 0.9)
    ensures category == "Other" && sub == "Transfer" ==> (k == Credit <==> transferCredit)
    ensures k == Credit ==>
              category == "Salary" || category == "Investment" || (category == "Other" && sub == "Transfer")
  {
    if category == "Salary" then Credit
    else if category == "Investment" then (if roll < 0.9 then Debit else Credit)
    else if category == "Other" && sub == "Transfer" then (if transferCredit then Credit else Debit)
    else Debit
  }
}
