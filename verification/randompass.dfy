/** The per-category random pass: `int(frequency * 24)` iterations per category other than
    `Salary`, each drawing a date in the window and a non-recurring subcategory. */
module RandomPass {
  import opened Calendar
  import opened Money
  import opened Catalog
  import opened Ledger
  import opened Amounts

  /** The draws of one iteration: the `randint` day offset of the date, the `random.choice`
      index into the available subcategories (taken modulo their number), the unit draw and the
      log-normal sample of `generate_amount`, the Investment roll and the Transfer coin. */
  datatype PickDraw = PickDraw(offset: nat, pick: nat, unit: real, sample: real, kindRoll: real,
                               transferCredit: bool)

  /** Draws within their ranges, indexed by (category position, iteration). A day offset is
      bounded only when the window is not empty: otherwise `randint` has no value to draw. */
  ghost predicate WellFormed(d: (nat, nat) -> PickDraw, start: Date, end: Date)
    requires Valid(start) && Valid(end)
  {
    forall c, i :: IsUnit(d(c, i).unit) && (LessEq(start, end) ==> d(c, i).offset <= DaysBetween(start, end))
  }

  /** Iterations the pass runs for a category: none for `Salary`, `int(frequency * 24)`
      otherwise. */
  function Iterations(cat: Category): nat {
    if cat.name == "Salary" then 0 else TargetCount(cat.frequency)
  }

  /** Some iteration of the pass calls `generate_transaction_date(START_DATE, END_DATE)`. */
  predicate DrawsDates(cats: seq<Category>) {
    exists c :: 0 <= c < |cats| && Iterations(cats[c]) > 0
  }

  /** Records a category contributes: its iteration count, or none when exclusion leaves it
      no subcategory to choose. */
  function Expected(cat: Category, excluded: set<string>): nat {
    if |Available(cat.subcategories, excluded)| == 0 then 0 else Iterations(cat)
  }

  /** One loop iteration for category `cat`: the date is drawn first (it is drawn even when the
      iteration is then skipped), the subcategory is chosen among the available ones, and the
      amount and type follow `generate_amount` and the type rule. */
  function Iteration(cat: Category, excluded: set<string>, start: Date, end: Date, d: PickDraw): seq<Entry>
    requires Valid(start) && Valid(end) && LessEq(start, end)
    requires IsUnit(d.unit) && d.offset <= DaysBetween(start, end)
  {
    var date := TransactionDate(start, end, d.offset);
    var available := Available(cat.subcategories, excluded);
    if |available| == 0 then []
    else
      var sub := available[d.pick % |available|];
      [Entry(date, RandomKind(cat.name, sub, d.kindRoll, d.transferCredit),
             GenerateAmount(cat, sub, d.unit, d.sample), cat.name, sub)]
  }

  /** Iterations `i` up to `n` of category position `c`. */
  function CategoryRun(cat: Category, excluded: set<string>, start: Date, end: Date, c: nat, i: nat, n: nat,
                       d: (nat, nat) -> PickDraw): seq<Entry>
    requires Valid(start) && Valid(end) && WellFormed(d, start, end)
    requires i < n ==> LessEq(start, end)
    decreases n - i
  {
    if i >= n then []
    else Iteration(cat, excluded, start, end, d(c, i)) + CategoryRun(cat, excluded, start, end, c, i + 1, n, d)
  }

  /** The pass over the categories from position `c` on, in catalog order. */
  function RandomPassFrom(cats: seq<Category>, excluded: set<string>, start: Date, end: Date, c: nat,
                          d: (nat, nat) -> PickDraw): seq<Entry>
    requires Valid(start) && Valid(end) && WellFormed(d, start, end)
    requires LessEq(start, end) || !DrawsDates(cats)
    decreases |cats| - c
  {
    if c >= |cats| then []
    else
      assert Iterations(cats[c]) > 0 ==> DrawsDates(cats);
      CategoryRun(cats[c], excluded, start, end, c, 0, Iterations(cats[c]), d)
      + RandomPassFrom(cats, excluded, start, end, c + 1, d)
  }

  lemma RandomPassUnfold(cats: seq<Category>, excluded: set<string>, start: Date, end: Date, c: nat,
                         d: (nat, nat) -> PickDraw)
    requires Valid(start) && Valid(end) && WellFormed(d, start, end)
    requires LessEq(start, end) || !DrawsDates(cats)
    requires c < |cats|
    ensures 0 < Iterations(cats[c]) ==> LessEq(start, end)
    ensures RandomPassFrom(cats, excluded, start, end, c, d)
         == CategoryRun(cats[c], excluded, start, end, c, 0, Iterations(cats[c]), d)
            + RandomPassFrom(cats, excluded, start, end, c + 1, d)
  {
    assert Iterations(cats[c]) > 0 ==> DrawsDates(cats);
  }

  /** What a random-pass record of category `cat` looks like: not `Salary`; a subcategory of
      the category outside the exclusion set; a date in the window; Credit only for Investment
      or for Other/Transfer; an amount inside the category's range when the category is well
      scaled. */
  predicate RandomShaped(e: Entry, cat: Category, excluded: set<string>, start: Date, end: Date) {
    && cat.name != "Salary" && e.category == cat.name
    && e.subCategory in cat.subcategories && e.subCategory !in excluded
    && InWindow(e.date, start, end)
    && (e.kind == Credit ==> e.category == "Investment" || (e.category == "Other" && e.subCategory == "Transfer"))
    && (WellScaled(cat) && (e.subCategory == "Monthly Salary" ==> cat.minAmount <= 50000 && 70000 <= cat.maxAmount)
        ==> 100 * cat.minAmount <= e.amount <= 100 * cat.maxAmount)
  }

  lemma IterationShape(cat: Category, excluded: set<string>, start: Date, end: Date, d: PickDraw)
    requires Valid(start) && Valid(end) && LessEq(start, end)
    requires IsUnit(d.unit) && d.offset <= DaysBetween(start, end)
    requires cat.name != "Salary"
    ensures |Iteration(cat, excluded, start, end, d)| == if |Available(cat.subcategories, excluded)| == 0 then 0 else 1
    ensures forall i :: 0 <= i < |Iteration(cat, excluded, start, end, d)| ==>
              RandomShaped(Iteration(cat, excluded, start, end, d)[i], cat, excluded, start, end)
  {
    var available := Available(cat.subcategories, excluded);
    AvailableMembers(cat.subcategories, excluded);
    if |available| > 0 {
      var sub := available[d.pick % |available|];
      assert sub in available;
      if WellScaled(cat) && (sub == "Monthly Salary" ==> cat.minAmount <= 50000 && 70000 <= cat.maxAmount) {
        AmountWithinCategory(cat, sub, d.unit, d.sample);
      }
    }
  }

  /** A category's run has exactly `n - i` iterations' worth of records when it has an
      available subcategory (none otherwise), all shaped as `RandomShaped` says. */
  lemma {:induction false} CategoryRunShape(cat: Category, excluded: set<string>, start: Date, end: Date,
                                            c: nat, i: nat, n: nat, d: (nat, nat) -> PickDraw)
    requires Valid(start) && Valid(end) && WellFormed(d, start, end)
    requires i < n ==> LessEq(start, end)
    requires cat.name != "Salary"
    ensures |CategoryRun(cat, excluded, start, end, c, i, n, d)|
         == if i >= n || |Available(cat.subcategories, excluded)| == 0 then 0 else n - i
    ensures forall j :: 0 <= j < |CategoryRun(cat, excluded, start, end, c, i, n, d)| ==>
              RandomShaped(CategoryRun(cat, excluded, start, end, c, i, n, d)[j], cat, excluded, start, end)
    decreases n - i
  {
    if i < n {
      var head := Iteration(cat, excluded, start, end, d(c, i));
      var tail := CategoryRun(cat, excluded, start, end, c, i + 1, n, d);
      var r := CategoryRun(cat, excluded, start, end, c, i, n, d);
      assert r == head + tail;
      IterationShape(cat, excluded, start, end, d(c, i));
      CategoryRunShape(cat, excluded, start, end, c, i + 1, n, d);
      forall j | 0 <= j < |r|
        ensures RandomShaped(r[j], cat, excluded, start, end)
      {
        if j >= |head| {
          assert r[j] == tail[j - |head|];
        }
      }
    } else {
      assert CategoryRun(cat, excluded, start, end, c, i, n, d) == [];
    }
  }

  /** Every random-pass record is shaped by one of the categories it ran, which is not
      `Salary`: in particular no record carries a recurring subcategory. */
  lemma {:induction false} RandomPassSound(cats: seq<Category>, excluded: set<string>, start: Date, end: Date,
                                           c: nat, d: (nat, nat) -> PickDraw)
    requires Valid(start) && Valid(end) && WellFormed(d, start, end)
    requires LessEq(start, end) || !DrawsDates(cats)
    ensures forall j :: 0 <= j < |RandomPassFrom(cats, excluded, start, end, c, d)| ==>
              exists b :: c <= b < |cats|
                && RandomShaped(RandomPassFrom(cats, excluded, start, end, c, d)[j], cats[b], excluded, start, end)
    decreases |cats| - c
  {
    if c < |cats| {
      RandomPassUnfold(cats, excluded, start, end, c, d);
      var head := CategoryRun(cats[c], excluded, start, end, c, 0, Iterations(cats[c]), d);
      var tail := RandomPassFrom(cats, excluded, start, end, c + 1, d);
      var r := RandomPassFrom(cats, excluded, start, end, c, d);
      if cats[c].name != "Salary" {
        CategoryRunShape(cats[c], excluded, start, end, c, 0, Iterations(cats[c]), d);
      } else {
        assert head == [];
      }
      RandomPassSound(cats, excluded, start, end, c + 1, d);
      forall j | 0 <= j < |r|
        ensures exists b :: c <= b < |cats| && RandomShaped(r[j], cats[b], excluded, start, end)
      {
        if j < |head| {
          assert RandomShaped(r[j], cats[c], excluded, start, end);
        } else {
          assert r[j] == tail[j - |head|];
          var b :| c + 1 <= b < |cats| && RandomShaped(tail[j - |head|], cats[b], excluded, start, end);
          assert RandomShaped(r[j], cats[b], excluded, start, end);
        }
      }
    } else {
      assert RandomPassFrom(cats, excluded, start, end, c, d) == [];
    }
  }

  /** The records of category `name`. */
  function OfCategory(name: string): Entry -> bool {
    (e: Entry) => e.category == name
  }

  /** Records the categories from position `c` on are expected to contribute under `name`. */
  function ExpectedFrom(cats: seq<Category>, excluded: set<string>, c: nat, name: string): nat
    decreases |cats| - c
  {
    if c >= |cats| then 0
    else (if cats[c].name == name then Expected(cats[c], excluded) else 0)
         + ExpectedFrom(cats, excluded, c + 1, name)
  }

  /** The pass from position `c` holds, under each category name, exactly the records the
      categories of that name are expected to contribute. */
  lemma {:induction false} RandomPassCountFrom(cats: seq<Category>, excluded: set<string>, start: Date, end: Date,
                                               c: nat, d: (nat, nat) -> PickDraw, name: string)
    requires Valid(start) && Valid(end) && WellFormed(d, start, end)
    requires LessEq(start, end) || !DrawsDates(cats)
    ensures CountWhere(RandomPassFrom(cats, excluded, start, end, c, d), OfCategory(name))
         == ExpectedFrom(cats, excluded, c, name)
    decreases |cats| - c
  {
    if c < |cats| {
      RandomPassCountStep(cats, excluded, start, end, c, d, name);
      RandomPassCountFrom(cats, excluded, start, end, c + 1, d, name);
    } else {
      assert RandomPassFrom(cats, excluded, start, end, c, d) == [];
    }
  }

  /** With distinct names, only position `b` contributes under `cats[b].name`. */
  lemma {:induction false} ExpectedFromDistinct(cats: seq<Category>, excluded: set<string>, c: nat, b: nat)
    requires DistinctNames(cats) && b < |cats|
    ensures ExpectedFrom(cats, excluded, c, cats[b].name) == if c <= b then Expected(cats[b], excluded) else 0
    decreases |cats| - c
  {
    if c < |cats| {
      ExpectedFromDistinct(cats, excluded, c + 1, b);
      assert c != b ==> cats[c].name != cats[b].name;
    }
  }

  /** With distinct category names, category `cats[b]` contributes exactly `Expected`
      records: its `int(frequency * 24)` iterations, or none for `Salary` and for a category
      whose subcategories are all recurring. */
  lemma RandomPassCount(cats: seq<Category>, excluded: set<string>, start: Date, end: Date,
                        c: nat, d: (nat, nat) -> PickDraw, b: nat)
    requires Valid(start) && Valid(end) && WellFormed(d, start, end)
    requires LessEq(start, end) || !DrawsDates(cats)
    requires DistinctNames(cats) && b < |cats|
    ensures CountWhere(RandomPassFrom(cats, excluded, start, end, c, d), OfCategory(cats[b].name))
         == if c <= b then Expected(cats[b], excluded) else 0
  {
    RandomPassCountFrom(cats, excluded, start, end, c, d, cats[b].name);
    ExpectedFromDistinct(cats, excluded, c, b);
  }

  /** A category's count over the pass from position `c` is what `c`'s run contributes to it
      (`Expected` when the names agree, nothing otherwise) plus its count over the rest. */
  lemma RandomPassCountStep(cats: seq<Category>, excluded: set<string>, start: Date, end: Date,
                            c: nat, d: (nat, nat) -> PickDraw, name: string)
    requires Valid(start) && Valid(end) && WellFormed(d, start, end)
    requires LessEq(start, end) || !DrawsDates(cats)
    requires c < |cats|
    ensures CountWhere(RandomPassFrom(cats, excluded, start, end, c, d), OfCategory(name))
         == (if cats[c].name == name then Expected(cats[c], excluded) else 0)
            + CountWhere(RandomPassFrom(cats, excluded, start, end, c + 1, d), OfCategory(name))
  {
    RandomPassUnfold(cats, excluded, start, end, c, d);
    CountWhereAppend(CategoryRun(cats[c], excluded, start, end, c, 0, Iterations(cats[c]), d),
                     RandomPassFrom(cats, excluded, start, end, c + 1, d), OfCategory(name));
    CategoryRunCount(cats[c], excluded, start, end, c, d, name);
  }

  lemma CategoryRunCount(cat: Category, excluded: set<string>, start: Date, end: Date, c: nat,
                         d: (nat, nat) -> PickDraw, name: string)
    requires Valid(start) && Valid(end) && WellFormed(d, start, end)
    requires 0 < Iterations(cat) ==> LessEq(start, end)
    ensures CountWhere(CategoryRun(cat, excluded, start, end, c, 0, Iterations(cat), d), OfCategory(name))
         == if cat.name == name then Expected(cat, excluded) else 0
  {
    var run := CategoryRun(cat, excluded, start, end, c, 0, Iterations(cat), d);
    if cat.name != "Salary" {
      CategoryRunShape(cat, excluded, start, end, c, 0, Iterations(cat), d);
      CountOfOneCategory(run, cat.name, name);
    } else {
      assert run == [];
    }
  }

  lemma {:induction false} CountOfOneCategory(s: seq<Entry>, name: string, other: string)
    requires forall j :: 0 <= j < |s| ==> s[j].category == name
    ensures CountWhere(s, OfCategory(other)) == if name == other then |s| else 0
  {
    if |s| > 0 {
      CountOfOneCategory(s[1..], name, other);
    }
  }
}
