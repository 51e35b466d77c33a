/** The generator's configuration data: the category catalog and the recurring templates,
    with the source's own values, and the derived recurring-subcategory exclusion set. */
module Catalog {

  /** A catalog entry: `CATEGORIES[name]` with its subcategory list, whole-unit amount range
      and target monthly frequency. */
  datatype Category = Category(
    name: string,
    subcategories: seq<string>,
    minAmount: int,
    maxAmount: int,
    frequency: real)

  /** An entry of `RECURRING_TRANSACTIONS`. */
  datatype Template = Template(
    category: string,
    subcategory: string,
    amount: int,
    dayOfMonth: int,
    hasVariation: bool)

  /** Dictionary keys are distinct: no two catalog entries share a name. */
  predicate DistinctNames(cats: seq<Category>) {
    forall i, j :: 0 <= i < j < |cats| ==> cats[i].name != cats[j].name
  }

  const SourceCategories: seq<Category> := [
    Category("Food", ["Groceries", "Restaurants", "Fast Food", "Delivery", "Coffee Shop", "Bakery"], 50, 1000, 25.0),
    Category("Travel", ["Fuel", "Ride-share", "Public Transport", "Parking", "Taxi", "Flight", "Hotel"], 50, 2500, 15.0),
    Category("Shopping", ["Clothing", "Electronics", "Online", "Household", "Personal Care", "Books"], 500, 10000, 5.0),
    Category("Entertainment", ["Movies", "Streaming", "Gaming", "Events", "Sports", "Hobbies"], 100, 5000, 4.0),
    Category("Bills", ["Electricity", "Water", "Internet", "Phone", "Gas", "Rent", "Insurance"], 1000, 10000, 1.0),
    Category("Healthcare", ["Medical", "Pharmacy", "Insurance", "Gym", "Wellness"], 1000, 10000, 3.0),
    Category("Investment", ["Mutual Funds", "Stocks", "SIP", "Crypto"], 500, 2000, 2.0),
    Category("Salary", ["Monthly Salary", "Bonus", "Freelance", "Reimbursement"], 20000, 80000, 1.5),
    Category("Other", ["ATM Withdrawal", "Transfer", "Miscellaneous", "Gifts", "Donations"], 1000, 10000, 3.0)
  ]

  const SourceTemplates: seq<Template> := [
    Template("Bills", "Rent", 20000, 1, false),
    Template("Bills", "Internet", 2000, 1, false),
    Template("Bills", "Electricity", 2000, 10, true),
    Template("Bills", "Phone", 1000, 10, false),
    Template("Bills", "Water", 500, 10, false),
    Template("Bills", "Gas", 1000, 15, true),
    Template("Bills", "Insurance", 500, 20, false),
    Template("Entertainment", "Streaming", 1500, 15, false),
    Template("Healthcare", "Gym", 2000, 1, false),
    Template("Investment", "SIP", 2000, 5, false)
  ]

  /** No source template belongs to the Salary, Food, Travel, Shopping or Other category: the
      templates use Bills, Entertainment, Healthcare and Investment only. */
  lemma SourceTemplatesUntemplated()
    ensures forall m :: 0 <= m < |SourceTemplates| ==>
              && SourceTemplates[m].category != "Salary"
              && SourceTemplates[m].category != "Food"
              && SourceTemplates[m].category != "Travel"
              && SourceTemplates[m].category != "Shopping"
              && SourceTemplates[m].category != "Other"
  {
  }

  /** Every source template falls on a day from 1 to 20, a day every month has. */
  lemma SourceTemplateDays()
    ensures forall m :: 0 <= m < |SourceTemplates| ==> 1 <= SourceTemplates[m].dayOfMonth <= 20
  {
  }

  /** `recurring_subcategories`: the set of template subcategory names (names only, with no
      category attached). */
  function RecurringSubcategories(ts: seq<Template>): set<string>
  {
    SubcategoriesFrom(ts, 0)
  }

  /** The subcategory names of the templates from position `k` on. */
  function SubcategoriesFrom(ts: seq<Template>, k: nat): set<string>
    decreases |ts| - k
  {
    if k >= |ts| then {} else {ts[k].subcategory} + SubcategoriesFrom(ts, k + 1)
  }

  lemma {:induction false} SubcategoriesFromMembers(ts: seq<Template>, k: nat, s: string)
    ensures s in SubcategoriesFrom(ts, k) <==> exists i :: k <= i < |ts| && ts[i].subcategory == s
    decreases |ts| - k
  {
    if k < |ts| {
      SubcategoriesFromMembers(ts, k + 1, s);
    }
  }

  /** A name is excluded exactly when some template carries it as its subcategory. */
  lemma RecurringSubcategoriesMembers(ts: seq<Template>, s: string)
    ensures s in RecurringSubcategories(ts) <==> exists t :: t in ts && t.subcategory == s
  {
    SubcategoriesFromMembers(ts, 0, s);
    if exists t :: t in ts && t.subcategory == s {
      var t :| t in ts && t.subcategory == s;
      var i :| 0 <= i < |ts| && ts[i] == t;
    }
  }

  /** `available_subcategories`: the category's subcategories not in `excluded`, in catalog
      order. */
  function Available(subs: seq<string>, excluded: set<string>): seq<string>
  {
    if |subs| == 0 then []
    else if subs[0] in excluded then Available(subs[1..], excluded)
    else [subs[0]] + Available(subs[1..], excluded)
  }

  /** The available list holds exactly the non-excluded subcategories, and no more entries
      than the category has. */
  lemma {:induction false} AvailableMembers(subs: seq<string>, excluded: set<string>)
    ensures forall s :: s in Available(subs, excluded) <==> s in subs && s !in excluded
    ensures |Available(subs, excluded)| <= |subs|
  {
    if |subs| > 0 {
      AvailableMembers(subs[1..], excluded);
      assert subs == [subs[0]] + subs[1..];
    }
  }

  /** `int(frequency * 24)` iterations of `range`: truncation toward zero, and a negative
      count iterates zero times. */
  function TargetCount(frequency: real): (n: nat)
    ensures frequency >= 0.0 ==> n as real <= frequency * 24.0 < n as real + 1.0
    ensures frequency * 24.0 < 1.0 ==> n == 0
  {
    var x := frequency * 24.0;
    if x < 0.0 then 0 else x.Floor
  }

  /** The recurring subcategory names of the source templates. */
  lemma SourceExclusionSet()
    ensures RecurringSubcategories(SourceTemplates) == SourceExcluded
  {
    var ts := SourceTemplates;
    assert SubcategoriesFrom(ts, 10) == {};
    assert SubcategoriesFrom(ts, 9) == {"SIP"};
    assert SubcategoriesFrom(ts, 8) == {"Gym", "SIP"};
    assert SubcategoriesFrom(ts, 7) == {"Streaming", "Gym", "SIP"};
    assert SubcategoriesFrom(ts, 6) == {"Insurance", "Streaming", "Gym", "SIP"};
    assert SubcategoriesFrom(ts, 5) == {"Gas", "Insurance", "Streaming", "Gym", "SIP"};
    assert SubcategoriesFrom(ts, 4) == {"Water", "Gas", "Insurance", "Streaming", "Gym", "SIP"};
    assert SubcategoriesFrom(ts, 3) == {"Phone", "Water", "Gas", "Insurance", "Streaming", "Gym", "SIP"};
    assert SubcategoriesFrom(ts, 2) == {"Electricity", "Phone", "Water", "Gas", "Insurance", "Streaming", "Gym", "SIP"};
    assert SubcategoriesFrom(ts, 1) == {"Internet", "Electricity", "Phone", "Water", "Gas", "Insurance", "Streaming", "Gym", "SIP"};
    assert SubcategoriesFrom(ts, 0) == {"Rent", "Internet", "Electricity", "Phone", "Water", "Gas", "Insurance", "Streaming", "Gym", "SIP"};
  }

  /** The source's exclusion set, spelled out. */
  const SourceExcluded: set<string> :=
    {"Rent", "Internet", "Electricity", "Phone", "Water", "Gas", "Insurance", "Streaming", "Gym", "SIP"}

  /** Filtering distributes over concatenation. */
  lemma {:induction false} AvailableAppend(a: seq<string>, b: seq<string>, excluded: set<string>)
    ensures Available(a + b, excluded) == Available(a, excluded) + Available(b, excluded)
  {
    if |a| > 0 {
      AvailableAppend(a[1..], b, excluded);
      assert (a + b)[1..] == a[1..] + b;
    } else {
      assert a + b == b;
    }
  }

  /** Names none of which is excluded all stay, in order. */
  lemma {:induction false} AvailableKeepsAll(subs: seq<string>, excluded: set<string>)
    requires forall i :: 0 <= i < |subs| ==> subs[i] !in excluded
    ensures Available(subs, excluded) == subs
  {
    if |subs| > 0 {
      AvailableKeepsAll(subs[1..], excluded);
      assert subs == [subs[0]] + subs[1..];
    }
  }

  /** Names all of which are excluded all go. */
  lemma {:induction false} AvailableDropsAll(subs: seq<string>, excluded: set<string>)
    requires forall i :: 0 <= i < |subs| ==> subs[i] in excluded
    ensures Available(subs, excluded) == []
  {
    if |subs| > 0 {
      AvailableDropsAll(subs[1..], excluded);
    }
  }

  /** A list whose middle part is excluded and whose outer parts are not loses exactly its
      middle part. */
  lemma AvailableSplice(keep: seq<string>, drop: seq<string>, rest: seq<string>, excluded: set<string>)
    requires forall i :: 0 <= i < |keep| ==> keep[i] !in excluded
    requires forall i :: 0 <= i < |drop| ==> drop[i] in excluded
    requires forall i :: 0 <= i < |rest| ==> rest[i] !in excluded
    ensures Available(keep + drop + rest, excluded) == keep + rest
  {
    AvailableAppend(keep + drop, rest, excluded);
    AvailableAppend(keep, drop, excluded);
    AvailableKeepsAll(keep, excluded);
    AvailableDropsAll(drop, excluded);
    AvailableKeepsAll(rest, excluded);
  }

  /** The subcategories the random pass may draw for each source category: every Bills
      subcategory is recurring, and `Insurance`, `Gym`, `Streaming` and `SIP` are excluded from
      Healthcare, Entertainment and Investment because the set holds names only; Food, Travel,
      Shopping and Other keep all of theirs. */
  lemma AvailableFood()
    ensures Available(SourceCategories[0].subcategories, SourceExcluded) == SourceCategories[0].subcategories
  {
    var subs := ["Groceries", "Restaurants", "Fast Food", "Delivery", "Coffee Shop", "Bakery"];
    assert SourceCategories[0].subcategories == subs + [] + [];
    AvailableSplice(subs, [], [], SourceExcluded);
  }

  lemma AvailableTravel()
    ensures Available(SourceCategories[1].subcategories, SourceExcluded) == SourceCategories[1].subcategories
  {
    var subs := ["Fuel", "Ride-share", "Public Transport", "Parking", "Taxi", "Flight", "Hotel"];
    assert SourceCategories[1].subcategories == subs + [] + [];
    AvailableSplice(subs, [], [], SourceExcluded);
  }

  lemma AvailableShopping()
    ensures Available(SourceCategories[2].subcategories, SourceExcluded) == SourceCategories[2].subcategories
  {
    var subs := ["Clothing", "Electronics", "Online", "Household", "Personal Care", "Books"];
    assert SourceCategories[2].subcategories == subs + [] + [];
    AvailableSplice(subs, [], [], SourceExcluded);
  }

  lemma AvailableEntertainment()
    ensures Available(SourceCategories[3].subcategories, SourceExcluded) == ["Movies", "Gaming", "Events", "Sports", "Hobbies"]
  {
    var keep, rest := ["Movies"], ["Gaming", "Events", "Sports", "Hobbies"];
    assert SourceCategories[3].subcategories == keep + ["Streaming"] + rest;
    AvailableSplice(keep, ["Streaming"], rest, SourceExcluded);
  }

  lemma AvailableBills()
    ensures Available(SourceCategories[4].subcategories, SourceExcluded) == []
  {
    var subs := ["Electricity", "Water", "Internet", "Phone", "Gas", "Rent", "Insurance"];
    assert SourceCategories[4].subcategories == [] + subs + [];
    AvailableSplice([], subs, [], SourceExcluded);
  }

  lemma AvailableHealthcare()
    ensures Available(SourceCategories[5].subcategories, SourceExcluded) == ["Medical", "Pharmacy", "Wellness"]
  {
    var keep, rest := ["Medical", "Pharmacy"], ["Wellness"];
    assert SourceCategories[5].subcategories == keep + ["Insurance", "Gym"] + rest;
    AvailableSplice(keep, ["Insurance", "Gym"], rest, SourceExcluded);
  }

  lemma AvailableInvestment()
    ensures Available(SourceCategories[6].subcategories, SourceExcluded) == ["Mutual Funds", "Stocks", "Crypto"]
  {
    var keep, rest := ["Mutual Funds", "Stocks"], ["Crypto"];
    assert SourceCategories[6].subcategories == keep + ["SIP"] + rest;
    AvailableSplice(keep, ["SIP"], rest, SourceExcluded);
  }

  lemma AvailableOther()
    ensures Available(SourceCategories[8].subcategories, SourceExcluded) == SourceCategories[8].subcategories
  {
    var subs := ["ATM Withdrawal", "Transfer", "Miscellaneous", "Gifts", "Donations"];
    assert SourceCategories[8].subcategories == subs + [] + [];
    AvailableSplice(subs, [], [], SourceExcluded);
  }

  /** Every template amount and every category minimum is positive, and `Monthly Salary` is a
      subcategory of the Salary category only. */
  lemma SourceAmountFacts()
    ensures forall m :: 0 <= m < |SourceTemplates| ==> 0 < SourceTemplates[m].amount
    ensures forall b :: 0 <= b < |SourceCategories| ==> 0 < SourceCategories[b].minAmount
    ensures forall b :: 0 <= b < |SourceCategories| && SourceCategories[b].name != "Salary" ==>
              "Monthly Salary" !in SourceCategories[b].subcategories
  {
  }

  /** Iterations per category over the hard-coded 24 months. */
  lemma SourceTargetCounts()
    ensures TargetCount(SourceCategories[0].frequency) == 600
    ensures TargetCount(SourceCategories[1].frequency) == 360
    ensures TargetCount(SourceCategories[2].frequency) == 120
    ensures TargetCount(SourceCategories[3].frequency) == 96
    ensures TargetCount(SourceCategories[4].frequency) == 24
    ensures TargetCount(SourceCategories[5].frequency) == 72
    ensures TargetCount(SourceCategories[6].frequency) == 48
    ensures TargetCount(SourceCategories[7].frequency) == 36
    ensures TargetCount(SourceCategories[8].frequency) == 72
  {
  }

  lemma SourceDistinctNames()
    ensures DistinctNames(SourceCategories)
    ensures SourceCategories[7].name == "Salary"
  {
  }
}
