/** `generate_transactions` followed by the sort-and-renumber step: the three passes over an
    explicit configuration and explicit random draws. */
module Generator {
  import opened Wrappers
  import opened Calendar
  import opened Months
  import opened Money
  import opened Catalog
  import opened Ledger
  import Recurring
  import Salary
  import RandomPass
  import Amounts
  import opened Finalisation

  /** The module-level configuration: `START_DATE`, `END_DATE`, `START_ID`, `CATEGORIES` (in
      dictionary order) and `RECURRING_TRANSACTIONS`. */
  datatype Config = Config(start: Date, end: Date, startId: int, categories: seq<Category>,
                           templates: seq<Template>)

  const SourceConfig: Config :=
    Config(Date(2024, 1, 1), Date(2025, 11, 4), 10001, SourceCategories, SourceTemplates)

  /** Both window ends are real dates and the catalog is a dictionary (distinct names). */
  predicate ValidConfig(cfg: Config) {
    Valid(cfg.start) && Valid(cfg.end) && DistinctNames(cfg.categories)
  }

  /** Every random draw of one run, by pass. */
  datatype Draws = Draws(variation: (nat, nat) -> real, salary: nat -> Salary.SalaryDraw,
                         picks: (nat, nat) -> RandomPass.PickDraw)

  ghost predicate WellFormedDraws(cfg: Config, d: Draws)
    requires Valid(cfg.start) && Valid(cfg.end)
  {
    Recurring.UnitDraws(d.variation) && Salary.WellFormed(d.salary)
    && RandomPass.WellFormed(d.picks, cfg.start, cfg.end)
  }

  /** The exceptions the source can raise. In `generate_transactions`: a month step onto a day
      the next month lacks (`replace` raising `ValueError`), and `randint(0, n)` with `n < 0`
      when the window is empty but the random pass still has iterations to run. In the
      DataFrame step: an empty record list gives a frame without a `transaction_date` column
      (`KeyError`), and `pd.to_datetime` rejects a date outside pandas' timestamp range
      (`OutOfBoundsDatetime`). */
  datatype GenError = MonthStepFailed | EmptyWindow | NoRows | DateOutOfRange

  /** The days `pd.to_datetime` can represent at midnight: pandas' nanosecond timestamps run
      from 21 September 1677 00:12:43 to 11 April 2262 23:47:16. */
  predicate PandasDate(d: Date) {
    LessEq(Date(1677, 9, 22), d) && LessEq(d, Date(2262, 4, 11))
  }

  /** The unsorted records of the three passes, in generation order. */
  function Generated(cfg: Config, walk: seq<Date>, d: Draws): seq<Entry>
    requires ValidConfig(cfg) && WellFormedDraws(cfg, d)
    requires forall i :: 0 <= i < |walk| ==> Valid(walk[i])
    requires LessEq(cfg.start, cfg.end) || !RandomPass.DrawsDates(cfg.categories)
  {
    Recurring.RecurringPass(walk, cfg.start, cfg.end, cfg.templates, 0, d.variation)
    + Salary.SalaryPass(walk, cfg.start, cfg.end, 0, d.salary)
    + RandomPass.RandomPassFrom(cfg.categories, RecurringSubcategories(cfg.templates), cfg.start, cfg.end, 0, d.picks)
  }

  /** `generate_transactions()`: the records of the three passes, or the exception one of them
      raises. */
  function Transactions(cfg: Config, d: Draws): Result<seq<Entry>, GenError>
    requires ValidConfig(cfg) && WellFormedDraws(cfg, d)
  {
    match MonthWalk(cfg.start, cfg.end)
    case None => Failure(MonthStepFailed)
    case Some(walk) =>
      if !LessEq(cfg.start, cfg.end) && RandomPass.DrawsDates(cfg.categories) then Failure(EmptyWindow)
      else
        MonthWalkBounds(cfg.start, cfg.end);
        Success(Generated(cfg, walk, d))
  }

  /** The whole script up to the CSV: generate, build the frame, sort by date, renumber. */
  function Generate(cfg: Config, d: Draws): Result<seq<Transaction>, GenError>
    requires ValidConfig(cfg) && WellFormedDraws(cfg, d)
  {
    match Transactions(cfg, d)
    case Failure(err) => Failure(err)
    case Success(g) =>
      if |g| == 0 then Failure(NoRows)
      else if exists i :: 0 <= i < |g| && !PandasDate(g[i].date) then Failure(DateOutOfRange)
      else Success(Finalise(g, cfg.startId))
  }

  /** Generation fails exactly when a month step raises, when the random pass must draw a date
      from an empty window, when no record is generated, or when a record's date is outside
      pandas' range. A month step raises exactly when the start's day is missing from one of
      the months after it that the loop steps into; a start on day 28 or earlier never makes
      it raise. */
  lemma GenerateOutcome(cfg: Config, d: Draws)
    requires ValidConfig(cfg) && WellFormedDraws(cfg, d)
    ensures Generate(cfg, d) == Failure(MonthStepFailed) <==> MonthWalk(cfg.start, cfg.end).None?
    ensures Generate(cfg, d) == Failure(EmptyWindow) <==>
              MonthWalk(cfg.start, cfg.end).Some? && !LessEq(cfg.start, cfg.end) && RandomPass.DrawsDates(cfg.categories)
    ensures Generate(cfg, d) == Failure(NoRows) <==> Transactions(cfg, d) == Success([])
    ensures Generate(cfg, d) == Failure(DateOutOfRange) <==>
              Transactions(cfg, d).Success? && |Transactions(cfg, d).value| > 0
              && exists e :: e in Transactions(cfg, d).value && !PandasDate(e.date)
    ensures Generate(cfg, d).Success? <==>
              Transactions(cfg, d).Success? && |Transactions(cfg, d).value| > 0
              && forall e :: e in Transactions(cfg, d).value ==> PandasDate(e.date)
    ensures Generate(cfg, d) == Failure(MonthStepFailed) <==>
              exists k :: 0 <= k < MonthsUntil(cfg.start, cfg.end) && StepFailsAt(cfg.start, k)
    ensures Transactions(cfg, d).Success? <==>
              && (forall k :: 0 <= k < MonthsUntil(cfg.start, cfg.end) ==> !StepFailsAt(cfg.start, k))
              && (LessEq(cfg.start, cfg.end) || !RandomPass.DrawsDates(cfg.categories))
    ensures (cfg.start.day <= 28 && (LessEq(cfg.start, cfg.end) || !RandomPass.DrawsDates(cfg.categories)))
              ==> Transactions(cfg, d).Success?
  {
    MonthWalkShape(cfg.start, cfg.end);
    MonthWalkFails(cfg.start, cfg.end);
    match Transactions(cfg, d)
    case Failure(_) =>
    case Success(g) =>
      if exists e :: e in g && !PandasDate(e.date) {
        var e :| e in g && !PandasDate(e.date);
        var i :| 0 <= i < |g| && g[i] == e;
      }
  }

  /** A two-day window on 2–3 January with no categories and no templates generates nothing:
      the month's day 1 is outside the window and January is not a bonus month, so the frame
      has no `transaction_date` column and the run fails whatever the draws. */
  lemma EmptyRunFails(d: Draws)
    requires WellFormedDraws(Config(Date(2024, 1, 2), Date(2024, 1, 3), 1, [], []), d)
    ensures ValidConfig(Config(Date(2024, 1, 2), Date(2024, 1, 3), 1, [], []))
    ensures Generate(Config(Date(2024, 1, 2), Date(2024, 1, 3), 1, [], []), d) == Failure(NoRows)
  {
    var cfg := Config(Date(2024, 1, 2), Date(2024, 1, 3), 1, [], []);
    var walk := [cfg.start];
    assert MonthWalk(cfg.start, cfg.end) == Some(walk) by {
      assert StepMonth(cfg.start) == Some(Date(2024, 2, 2));
      assert MonthWalk(Date(2024, 2, 2), cfg.end) == Some([]);
      assert [cfg.start] + [] == walk;
    }
    assert Salary.SalaryPass(walk, cfg.start, cfg.end, 0, d.salary) == [] by {
      assert Salary.SalaryMonth(cfg.start, cfg.start, cfg.end, d.salary(0)) == [];
    }
    assert Recurring.RecurringPass(walk, cfg.start, cfg.end, [], 0, d.variation) == [] by {
      assert Recurring.MonthRecords(cfg.start, cfg.start, cfg.end, [], 0, 0, d.variation) == [];
      assert walk[1..] == [];
    }
    assert Generated(cfg, walk, d) == [];
    assert Transactions(cfg, d) == Success([]);
  }

  /** The cursors of a successful run. */
  function Walk(cfg: Config, d: Draws): (walk: seq<Date>)
    requires ValidConfig(cfg) && WellFormedDraws(cfg, d) && Generate(cfg, d).Success?
    ensures forall i :: 0 <= i < |walk| ==> Valid(walk[i]) && LessEq(cfg.start, walk[i]) && LessEq(walk[i], cfg.end)
    ensures Ascending(walk)
  {
    MonthWalkBounds(cfg.start, cfg.end);
    MonthWalk(cfg.start, cfg.end).value
  }

  /** The rows of a successful run are the generated records sorted by date and numbered
      `START_ID`, `START_ID + 1`, … in row order. */
  lemma GenerateRows(cfg: Config, d: Draws)
    requires ValidConfig(cfg) && WellFormedDraws(cfg, d) && Generate(cfg, d).Success?
    ensures var rows := Generate(cfg, d).value;
      && (forall i :: 0 <= i < |rows| ==> rows[i].id == cfg.startId + i)
      && SortedByDate(EntriesOf(rows))
      && multiset(EntriesOf(rows)) == multiset(Generated(cfg, Walk(cfg, d), d))
  {
  }

  /** A row of a successful run comes from one of the three passes and is shaped by it. */
  predicate RowShaped(e: Entry, cfg: Config, walk: seq<Date>)
    requires forall i :: 0 <= i < |walk| ==> Valid(walk[i])
  {
    || (exists c, m :: 0 <= c < |walk| && 0 <= m < |cfg.templates|
          && Recurring.FollowsTemplate(e, cfg.templates[m], walk[c], cfg.start, cfg.end))
    || (exists c :: 0 <= c < |walk| && Salary.SalaryShaped(e, walk[c], cfg.start, cfg.end))
    || (exists b :: 0 <= b < |cfg.categories|
          && RandomPass.RandomShaped(e, cfg.categories[b], RecurringSubcategories(cfg.templates), cfg.start, cfg.end))
  }

  lemma GeneratedShaped(cfg: Config, d: Draws, walk: seq<Date>)
    requires ValidConfig(cfg) && WellFormedDraws(cfg, d)
    requires forall i :: 0 <= i < |walk| ==> Valid(walk[i])
    requires LessEq(cfg.start, cfg.end) || !RandomPass.DrawsDates(cfg.categories)
    ensures forall e :: e in Generated(cfg, walk, d) ==> RowShaped(e, cfg, walk)
  {
    var rec := Recurring.RecurringPass(walk, cfg.start, cfg.end, cfg.templates, 0, d.variation);
    var sal := Salary.SalaryPass(walk, cfg.start, cfg.end, 0, d.salary);
    var rnd := RandomPass.RandomPassFrom(cfg.categories, RecurringSubcategories(cfg.templates), cfg.start, cfg.end, 0, d.picks);
    assert Generated(cfg, walk, d) == rec + sal + rnd;
    RecurringShaped(cfg, d, walk);
    SalaryRowsShaped(cfg, d, walk);
    RandomRowsShaped(cfg, d, walk);
  }

  lemma RecurringShaped(cfg: Config, d: Draws, walk: seq<Date>)
    requires ValidConfig(cfg) && WellFormedDraws(cfg, d)
    requires forall i :: 0 <= i < |walk| ==> Valid(walk[i])
    ensures forall e :: e in Recurring.RecurringPass(walk, cfg.start, cfg.end, cfg.templates, 0, d.variation) ==>
              RowShaped(e, cfg, walk)
  {
    var rec := Recurring.RecurringPass(walk, cfg.start, cfg.end, cfg.templates, 0, d.variation);
    Recurring.RecurringPassSound(walk, cfg.start, cfg.end, cfg.templates, 0, d.variation);
    forall e | e in rec
      ensures RowShaped(e, cfg, walk)
    {
      var i :| 0 <= i < |rec| && rec[i] == e;
    }
  }

  lemma SalaryRowsShaped(cfg: Config, d: Draws, walk: seq<Date>)
    requires ValidConfig(cfg) && WellFormedDraws(cfg, d)
    requires forall i :: 0 <= i < |walk| ==> Valid(walk[i])
    ensures forall e :: e in Salary.SalaryPass(walk, cfg.start, cfg.end, 0, d.salary) ==> RowShaped(e, cfg, walk)
  {
    var sal := Salary.SalaryPass(walk, cfg.start, cfg.end, 0, d.salary);
    Salary.SalaryPassSound(walk, cfg.start, cfg.end, 0, d.salary);
    forall e | e in sal
      ensures RowShaped(e, cfg, walk)
    {
      var i :| 0 <= i < |sal| && sal[i] == e;
    }
  }

  lemma RandomRowsShaped(cfg: Config, d: Draws, walk: seq<Date>)
    requires ValidConfig(cfg) && WellFormedDraws(cfg, d)
    requires forall i :: 0 <= i < |walk| ==> Valid(walk[i])
    requires LessEq(cfg.start, cfg.end) || !RandomPass.DrawsDates(cfg.categories)
    ensures forall e :: e in RandomPass.RandomPassFrom(cfg.categories, RecurringSubcategories(cfg.templates), cfg.start, cfg.end, 0, d.picks) ==>
              RowShaped(e, cfg, walk)
  {
    var rnd := RandomPass.RandomPassFrom(cfg.categories, RecurringSubcategories(cfg.templates), cfg.start, cfg.end, 0, d.picks);
    RandomPass.RandomPassSound(cfg.categories, RecurringSubcategories(cfg.templates), cfg.start, cfg.end, 0, d.picks);
    forall e | e in rnd
      ensures RowShaped(e, cfg, walk)
    {
      var i :| 0 <= i < |rnd| && rnd[i] == e;
    }
  }

  /** Every row of a successful run comes from one of the three passes and is shaped by it:
      a template in a visited month, a salary or bonus in a visited month, or a random draw of
      a non-`Salary` category with a non-recurring subcategory. */
  lemma GenerateRowsShaped(cfg: Config, d: Draws)
    requires ValidConfig(cfg) && WellFormedDraws(cfg, d) && Generate(cfg, d).Success?
    ensures forall i :: 0 <= i < |Generate(cfg, d).value| ==>
              RowShaped(Generate(cfg, d).value[i].entry, cfg, Walk(cfg, d))
  {
    var walk := Walk(cfg, d);
    var rows := Generate(cfg, d).value;
    var g := Generated(cfg, walk, d);
    GeneratedShaped(cfg, d, walk);
    forall i | 0 <= i < |rows|
      ensures RowShaped(rows[i].entry, cfg, walk)
    {
      assert EntriesOf(rows)[i] == rows[i].entry;
      assert rows[i].entry in multiset(EntriesOf(rows));
      assert rows[i].entry in multiset(g);
    }
  }

  /** No generated record is dated after `END_DATE`; with a start on day 15 or earlier none
      precedes `START_DATE` either (the bonus date is only checked against the end). */
  lemma GeneratedDatesInWindow(cfg: Config, d: Draws, walk: seq<Date>)
    requires ValidConfig(cfg) && WellFormedDraws(cfg, d)
    requires forall i :: 0 <= i < |walk| ==> Valid(walk[i]) && InWindow(walk[i], cfg.start, cfg.end)
    requires LessEq(cfg.start, cfg.end) || !RandomPass.DrawsDates(cfg.categories)
    ensures forall e :: e in Generated(cfg, walk, d) ==> LessEq(e.date, cfg.end)
    ensures cfg.start.day <= 15 ==> forall e :: e in Generated(cfg, walk, d) ==> LessEq(cfg.start, e.date)
  {
    GeneratedShaped(cfg, d, walk);
    forall e | e in Generated(cfg, walk, d)
      ensures LessEq(e.date, cfg.end)
      ensures cfg.start.day <= 15 ==> LessEq(cfg.start, e.date)
    {
      if exists c :: 0 <= c < |walk| && Salary.SalaryShaped(e, walk[c], cfg.start, cfg.end) {
        var c :| 0 <= c < |walk| && Salary.SalaryShaped(e, walk[c], cfg.start, cfg.end);
        assert LessEq(cfg.start, walk[c]);
      }
    }
  }

  /** No row is dated after `END_DATE`; with a start on day 15 or earlier no row precedes
      `START_DATE` either. */
  lemma GenerateDatesInWindow(cfg: Config, d: Draws)
    requires ValidConfig(cfg) && WellFormedDraws(cfg, d) && Generate(cfg, d).Success?
    ensures forall i :: 0 <= i < |Generate(cfg, d).value| ==> LessEq(Generate(cfg, d).value[i].entry.date, cfg.end)
    ensures cfg.start.day <= 15 ==>
              forall i :: 0 <= i < |Generate(cfg, d).value| ==> LessEq(cfg.start, Generate(cfg, d).value[i].entry.date)
  {
    var walk := Walk(cfg, d);
    var rows := Generate(cfg, d).value;
    var g := Generated(cfg, walk, d);
    GenerateRows(cfg, d);
    GeneratedDatesInWindow(cfg, d, walk);
    forall i | 0 <= i < |rows|
      ensures LessEq(rows[i].entry.date, cfg.end)
      ensures cfg.start.day <= 15 ==> LessEq(cfg.start, rows[i].entry.date)
    {
      assert EntriesOf(rows)[i] == rows[i].entry;
      assert rows[i].entry in multiset(EntriesOf(rows));
      assert rows[i].entry in multiset(g);
    }
  }

  /** Every row of category `Salary` is a Credit. */
  lemma GenerateSalaryIsCredit(cfg: Config, d: Draws)
    requires ValidConfig(cfg) && WellFormedDraws(cfg, d) && Generate(cfg, d).Success?
    ensures forall i :: 0 <= i < |Generate(cfg, d).value| && Generate(cfg, d).value[i].entry.category == "Salary"
              ==> Generate(cfg, d).value[i].entry.kind == Credit
  {
    GenerateRowsShaped(cfg, d);
  }

  /** Every row has a positive amount when every template amount is positive, every category
      is well scaled with a positive minimum, and `Monthly Salary` is a subcategory of no
      category other than `Salary`. */
  lemma GenerateAmountsPositive(cfg: Config, d: Draws)
    requires ValidConfig(cfg) && WellFormedDraws(cfg, d) && Generate(cfg, d).Success?
    requires forall m :: 0 <= m < |cfg.templates| ==> 0 < cfg.templates[m].amount
    requires forall b :: 0 <= b < |cfg.categories| ==> Amounts.WellScaled(cfg.categories[b]) && 0 < cfg.categories[b].minAmount
    requires forall b :: 0 <= b < |cfg.categories| && cfg.categories[b].name != "Salary" ==>
               "Monthly Salary" !in cfg.categories[b].subcategories
    ensures forall i :: 0 <= i < |Generate(cfg, d).value| ==> 0 < Generate(cfg, d).value[i].entry.amount
  {
    var walk := Walk(cfg, d);
    var rows := Generate(cfg, d).value;
    GenerateRowsShaped(cfg, d);
    forall i | 0 <= i < |rows|
      ensures 0 < rows[i].entry.amount
    {
      var e := rows[i].entry;
      assert RowShaped(e, cfg, walk);
      if (exists c, m :: 0 <= c < |walk| && 0 <= m < |cfg.templates|
            && Recurring.FollowsTemplate(e, cfg.templates[m], walk[c], cfg.start, cfg.end)) {
        var c, m :| 0 <= c < |walk| && 0 <= m < |cfg.templates|
           && Recurring.FollowsTemplate(e, cfg.templates[m], walk[c], cfg.start, cfg.end);
        assert 0 < cfg.templates[m].amount;
      } else if (exists b :: 0 <= b < |cfg.categories|
                   && RandomPass.RandomShaped(e, cfg.categories[b], RecurringSubcategories(cfg.templates), cfg.start, cfg.end)) {
        var b :| 0 <= b < |cfg.categories|
           && RandomPass.RandomShaped(e, cfg.categories[b], RecurringSubcategories(cfg.templates), cfg.start, cfg.end);
        assert Amounts.WellScaled(cfg.categories[b]) && 0 < cfg.categories[b].minAmount;
        assert e.subCategory != "Monthly Salary";
      }
    }
  }

  /** When no template has category `Salary`, every visited month holds exactly one monthly
      salary row if its day 1 lies in the window, and none otherwise. */
  lemma GenerateMonthlySalary(cfg: Config, d: Draws, c: nat)
    requires ValidConfig(cfg) && WellFormedDraws(cfg, d) && Generate(cfg, d).Success?
    requires forall m :: 0 <= m < |cfg.templates| ==> cfg.templates[m].category != "Salary"
    requires c < |Walk(cfg, d)|
    ensures CountWhere(EntriesOf(Generate(cfg, d).value), Salary.Within(Salary.IsMonthlySalary, Walk(cfg, d)[c]))
         == if InWindow(Salary.FirstOfMonth(Walk(cfg, d)[c]), cfg.start, cfg.end) then 1 else 0
  {
    var walk := Walk(cfg, d);
    GenerateRows(cfg, d);
    GeneratedMonthlySalary(cfg, d, walk, c);
    CountWherePermutation(EntriesOf(Generate(cfg, d).value), Generated(cfg, walk, d),
                          Salary.Within(Salary.IsMonthlySalary, walk[c]));
  }

  lemma GeneratedMonthlySalary(cfg: Config, d: Draws, walk: seq<Date>, c: nat)
    requires ValidConfig(cfg) && WellFormedDraws(cfg, d)
    requires forall i :: 0 <= i < |walk| ==> Valid(walk[i])
    requires LessEq(cfg.start, cfg.end) || !RandomPass.DrawsDates(cfg.categories)
    requires Ascending(walk) && c < |walk|
    requires forall m :: 0 <= m < |cfg.templates| ==> cfg.templates[m].category != "Salary"
    ensures CountWhere(Generated(cfg, walk, d), Salary.Within(Salary.IsMonthlySalary, walk[c]))
         == if InWindow(Salary.FirstOfMonth(walk[c]), cfg.start, cfg.end) then 1 else 0
  {
    var p := Salary.Within(Salary.IsMonthlySalary, walk[c]);
    var rec := Recurring.RecurringPass(walk, cfg.start, cfg.end, cfg.templates, 0, d.variation);
    var sal := Salary.SalaryPass(walk, cfg.start, cfg.end, 0, d.salary);
    var rnd := RandomPass.RandomPassFrom(cfg.categories, RecurringSubcategories(cfg.templates), cfg.start, cfg.end, 0, d.picks);
    assert Generated(cfg, walk, d) == rec + sal + rnd;
    assert forall e :: p(e) ==> e.category == "Salary" by {
      forall e ensures p(e) ==> e.category == "Salary" {
        assert p(e) == (Salary.IsMonthlySalary(e) && Salary.InMonth(e, walk[c]));
      }
    }
    RecurringOutside(cfg, d, walk, p, "Salary");
    RandomHasNoSalary(cfg, d, p);
    Salary.SalaryPassCounts(walk, cfg.start, cfg.end, 0, d.salary, c);
    CountWhereAppend(rec, sal, p);
    CountWhereAppend(rec + sal, rnd, p);
  }

  /** A recurring row carries its template's category, so a predicate that holds only of
      category `name` holds of no recurring row when no template has that category. */
  lemma RecurringOutside(cfg: Config, d: Draws, walk: seq<Date>, p: Entry -> bool, name: string)
    requires ValidConfig(cfg) && WellFormedDraws(cfg, d)
    requires forall i :: 0 <= i < |walk| ==> Valid(walk[i])
    requires forall m :: 0 <= m < |cfg.templates| ==> cfg.templates[m].category != name
    requires forall e :: p(e) ==> e.category == name
    ensures CountWhere(Recurring.RecurringPass(walk, cfg.start, cfg.end, cfg.templates, 0, d.variation), p) == 0
  {
    Recurring.RecurringPassCategories(walk, cfg.start, cfg.end, cfg.templates, 0, d.variation, name);
  }

  /** Every salary-pass row has category `Salary`. */
  lemma SalaryOutside(cfg: Config, d: Draws, walk: seq<Date>, p: Entry -> bool)
    requires ValidConfig(cfg) && WellFormedDraws(cfg, d)
    requires forall i :: 0 <= i < |walk| ==> Valid(walk[i])
    requires forall e :: p(e) ==> e.category != "Salary"
    ensures CountWhere(Salary.SalaryPass(walk, cfg.start, cfg.end, 0, d.salary), p) == 0
  {
    Salary.SalaryPassCategory(walk, cfg.start, cfg.end, 0, d.salary);
  }

  lemma RandomHasNoSalary(cfg: Config, d: Draws, p: Entry -> bool)
    requires ValidConfig(cfg) && WellFormedDraws(cfg, d)
    requires LessEq(cfg.start, cfg.end) || !RandomPass.DrawsDates(cfg.categories)
    requires forall e :: p(e) ==> e.category == "Salary"
    ensures CountWhere(RandomPass.RandomPassFrom(cfg.categories, RecurringSubcategories(cfg.templates),
                                                 cfg.start, cfg.end, 0, d.picks), p) == 0
  {
    var rnd := RandomPass.RandomPassFrom(cfg.categories, RecurringSubcategories(cfg.templates), cfg.start, cfg.end, 0, d.picks);
    RandomPass.RandomPassSound(cfg.categories, RecurringSubcategories(cfg.templates), cfg.start, cfg.end, 0, d.picks);
    forall i | 0 <= i < |rnd|
      ensures !p(rnd[i])
    {
      var b :| 0 <= b < |cfg.categories|
               && RandomPass.RandomShaped(rnd[i], cfg.categories[b], RecurringSubcategories(cfg.templates), cfg.start, cfg.end);
    }
  }

  /** A category that is not `Salary` and that no template uses appears in the rows exactly
      as often as the random pass draws it: `int(frequency * 24)` times, or never when
      exclusion leaves it no subcategory. */
  lemma GenerateCategoryCount(cfg: Config, d: Draws, b: nat)
    requires ValidConfig(cfg) && WellFormedDraws(cfg, d) && Generate(cfg, d).Success?
    requires b < |cfg.categories| && cfg.categories[b].name != "Salary"
    requires forall m :: 0 <= m < |cfg.templates| ==> cfg.templates[m].category != cfg.categories[b].name
    ensures CountWhere(EntriesOf(Generate(cfg, d).value), RandomPass.OfCategory(cfg.categories[b].name))
         == RandomPass.Expected(cfg.categories[b], RecurringSubcategories(cfg.templates))
  {
    var walk := Walk(cfg, d);
    var p := RandomPass.OfCategory(cfg.categories[b].name);
    GenerateRows(cfg, d);
    GeneratedCategoryCount(cfg, d, walk, b);
    CountWherePermutation(EntriesOf(Generate(cfg, d).value), Generated(cfg, walk, d), p);
  }

  lemma GeneratedCategoryCount(cfg: Config, d: Draws, walk: seq<Date>, b: nat)
    requires ValidConfig(cfg) && WellFormedDraws(cfg, d)
    requires forall i :: 0 <= i < |walk| ==> Valid(walk[i])
    requires LessEq(cfg.start, cfg.end) || !RandomPass.DrawsDates(cfg.categories)
    requires b < |cfg.categories| && cfg.categories[b].name != "Salary"
    requires forall m :: 0 <= m < |cfg.templates| ==> cfg.templates[m].category != cfg.categories[b].name
    ensures CountWhere(Generated(cfg, walk, d), RandomPass.OfCategory(cfg.categories[b].name))
         == RandomPass.Expected(cfg.categories[b], RecurringSubcategories(cfg.templates))
  {
    var name := cfg.categories[b].name;
    var p := RandomPass.OfCategory(name);
    var rec := Recurring.RecurringPass(walk, cfg.start, cfg.end, cfg.templates, 0, d.variation);
    var sal := Salary.SalaryPass(walk, cfg.start, cfg.end, 0, d.salary);
    var rnd := RandomPass.RandomPassFrom(cfg.categories, RecurringSubcategories(cfg.templates), cfg.start, cfg.end, 0, d.picks);
    assert Generated(cfg, walk, d) == rec + sal + rnd;
    assert forall e :: p(e) ==> e.category == name;
    RecurringOutside(cfg, d, walk, p, name);
    SalaryOutside(cfg, d, walk, p);
    RandomPass.RandomPassCount(cfg.categories, RecurringSubcategories(cfg.templates), cfg.start, cfg.end, 0, d.picks, b);
    CountWhereAppend(rec, sal, p);
    CountWhereAppend(rec + sal, rnd, p);
  }

  /** With distinct templates none of category `Salary`, each visited month holds exactly one
      row of each template whose date falls in the window, and none otherwise: the salary pass
      never uses a template's category and the random pass never draws a recurring
      subcategory. */
  lemma GenerateTemplateCount(cfg: Config, d: Draws, c: nat, m: nat)
    requires ValidConfig(cfg) && WellFormedDraws(cfg, d) && Generate(cfg, d).Success?
    requires Recurring.DistinctTemplates(cfg.templates) && m < |cfg.templates|
    requires cfg.templates[m].category != "Salary"
    requires c < |Walk(cfg, d)|
    ensures CountWhere(EntriesOf(Generate(cfg, d).value), Recurring.Matching(cfg.templates[m], Walk(cfg, d)[c]))
         == if InWindow(Recurring.TemplateDate(Walk(cfg, d)[c], cfg.templates[m]), cfg.start, cfg.end) then 1 else 0
  {
    var walk := Walk(cfg, d);
    GenerateRows(cfg, d);
    GeneratedTemplateCount(cfg, d, walk, c, m);
    CountWherePermutation(EntriesOf(Generate(cfg, d).value), Generated(cfg, walk, d),
                          Recurring.Matching(cfg.templates[m], walk[c]));
  }

  lemma GeneratedTemplateCount(cfg: Config, d: Draws, walk: seq<Date>, c: nat, m: nat)
    requires ValidConfig(cfg) && WellFormedDraws(cfg, d)
    requires forall i :: 0 <= i < |walk| ==> Valid(walk[i])
    requires LessEq(cfg.start, cfg.end) || !RandomPass.DrawsDates(cfg.categories)
    requires Ascending(walk) && c < |walk|
    requires Recurring.DistinctTemplates(cfg.templates) && m < |cfg.templates|
    requires cfg.templates[m].category != "Salary"
    ensures CountWhere(Generated(cfg, walk, d), Recurring.Matching(cfg.templates[m], walk[c]))
         == if InWindow(Recurring.TemplateDate(walk[c], cfg.templates[m]), cfg.start, cfg.end) then 1 else 0
  {
    var t := cfg.templates[m];
    var p := Recurring.Matching(t, walk[c]);
    var rec := Recurring.RecurringPass(walk, cfg.start, cfg.end, cfg.templates, 0, d.variation);
    var sal := Salary.SalaryPass(walk, cfg.start, cfg.end, 0, d.salary);
    var rnd := RandomPass.RandomPassFrom(cfg.categories, RecurringSubcategories(cfg.templates), cfg.start, cfg.end, 0, d.picks);
    assert Generated(cfg, walk, d) == rec + sal + rnd;
    assert forall e :: p(e) ==> e.category != "Salary" && e.subCategory == t.subcategory;
    Recurring.RecurringPassCount(walk, cfg.start, cfg.end, cfg.templates, 0, d.variation, c, m);
    SalaryOutside(cfg, d, walk, p);
    RandomAvoidsRecurring(cfg, d, p, t.subcategory) by {
      RecurringSubcategoriesMembers(cfg.templates, t.subcategory);
    }
    CountWhereAppend(rec, sal, p);
    CountWhereAppend(rec + sal, rnd, p);
  }

  /** No random-pass row has a recurring subcategory. */
  lemma RandomAvoidsRecurring(cfg: Config, d: Draws, p: Entry -> bool, sub: string)
    requires ValidConfig(cfg) && WellFormedDraws(cfg, d)
    requires LessEq(cfg.start, cfg.end) || !RandomPass.DrawsDates(cfg.categories)
    requires sub in RecurringSubcategories(cfg.templates)
    requires forall e :: p(e) ==> e.subCategory == sub
    ensures CountWhere(RandomPass.RandomPassFrom(cfg.categories, RecurringSubcategories(cfg.templates),
                                                 cfg.start, cfg.end, 0, d.picks), p) == 0
  {
    var rnd := RandomPass.RandomPassFrom(cfg.categories, RecurringSubcategories(cfg.templates), cfg.start, cfg.end, 0, d.picks);
    RandomPass.RandomPassSound(cfg.categories, RecurringSubcategories(cfg.templates), cfg.start, cfg.end, 0, d.picks);
    forall i | 0 <= i < |rnd|
      ensures !p(rnd[i])
    {
      var b :| 0 <= b < |cfg.categories|
               && RandomPass.RandomShaped(rnd[i], cfg.categories[b], RecurringSubcategories(cfg.templates), cfg.start, cfg.end);
    }
  }

  /** The source configuration is valid. */
  lemma SourceConfigValid()
    ensures ValidConfig(SourceConfig)
  {
    SourceDistinctNames();
  }

  /** The month loop from 1 January 2024 to 4 November 2025 never raises and visits the 23
      months from January 2024 to November 2025, each on day 1 and inside the window. */
  lemma SourceWalk()
    ensures MonthWalk(Date(2024, 1, 1), Date(2025, 11, 4)).Some?
    ensures |MonthWalk(Date(2024, 1, 1), Date(2025, 11, 4)).value| == 23
    ensures forall c :: 0 <= c < 23 ==>
              && MonthWalk(Date(2024, 1, 1), Date(2025, 11, 4)).value[c] == MonthsAfter(Date(2024, 1, 1), c)
              && MonthWalk(Date(2024, 1, 1), Date(2025, 11, 4)).value[c].day == 1
              && InWindow(MonthWalk(Date(2024, 1, 1), Date(2025, 11, 4)).value[c], Date(2024, 1, 1), Date(2025, 11, 4))
              && MonthIndex(MonthWalk(Date(2024, 1, 1), Date(2025, 11, 4)).value[c]) == MonthIndex(Date(2024, 1, 1)) + c
  {
    MonthWalkShape(Date(2024, 1, 1), Date(2025, 11, 4));
    MonthWalkBounds(Date(2024, 1, 1), Date(2025, 11, 4));
  }

  /** With the source configuration the passes raise nothing, produce at least one record (the
      first monthly salary), and date every record inside the window, so inside pandas' range. */
  lemma SourceGenerated(d: Draws)
    requires WellFormedDraws(SourceConfig, d)
    ensures ValidConfig(SourceConfig) && Transactions(SourceConfig, d).Success?
    ensures |Transactions(SourceConfig, d).value| > 0
    ensures forall e :: e in Transactions(SourceConfig, d).value ==> PandasDate(e.date)
  {
    SourceConfigValid();
    SourceTemplatesUntemplated();
    TransactionsFromFirstOfMonth(SourceConfig, d);
  }

  /** A window inside pandas' range that starts on day 1 of a month, with no `Salary`
      template, raises nothing in the passes, yields at least the first month's salary, and
      keeps every record's date inside pandas' range. */
  lemma TransactionsFromFirstOfMonth(cfg: Config, d: Draws)
    requires ValidConfig(cfg) && WellFormedDraws(cfg, d)
    requires cfg.start.day == 1 && LessEq(cfg.start, cfg.end) && PandasDate(cfg.start) && PandasDate(cfg.end)
    requires forall m :: 0 <= m < |cfg.templates| ==> cfg.templates[m].category != "Salary"
    ensures Transactions(cfg, d).Success? && |Transactions(cfg, d).value| > 0
    ensures forall e :: e in Transactions(cfg, d).value ==> PandasDate(e.date)
  {
    MonthWalkShape(cfg.start, cfg.end);
    MonthWalkBounds(cfg.start, cfg.end);
    var walk := MonthWalk(cfg.start, cfg.end).value;
    assert Transactions(cfg, d) == Success(Generated(cfg, walk, d));
    assert walk[0] == cfg.start;
    assert Salary.FirstOfMonth(walk[0]) == cfg.start;
    assert Ascending(walk);
    GeneratedNonEmpty(cfg, d, walk);
    GeneratedInPandasRange(cfg, d, walk);
  }

  /** A run whose first visited month has its day 1 in the window produces that month's salary,
      so at least one record. */
  lemma GeneratedNonEmpty(cfg: Config, d: Draws, walk: seq<Date>)
    requires ValidConfig(cfg) && WellFormedDraws(cfg, d)
    requires forall i :: 0 <= i < |walk| ==> Valid(walk[i])
    requires LessEq(cfg.start, cfg.end) || !RandomPass.DrawsDates(cfg.categories)
    requires Ascending(walk) && |walk| > 0 && InWindow(Salary.FirstOfMonth(walk[0]), cfg.start, cfg.end)
    requires forall m :: 0 <= m < |cfg.templates| ==> cfg.templates[m].category != "Salary"
    ensures |Generated(cfg, walk, d)| > 0
  {
    GeneratedMonthlySalary(cfg, d, walk, 0);
  }

  /** A window inside pandas' range that starts on day 15 or earlier keeps every record's date
      inside that range. */
  lemma GeneratedInPandasRange(cfg: Config, d: Draws, walk: seq<Date>)
    requires ValidConfig(cfg) && WellFormedDraws(cfg, d)
    requires forall i :: 0 <= i < |walk| ==> Valid(walk[i]) && InWindow(walk[i], cfg.start, cfg.end)
    requires LessEq(cfg.start, cfg.end) || !RandomPass.DrawsDates(cfg.categories)
    requires cfg.start.day <= 15 && PandasDate(cfg.start) && PandasDate(cfg.end)
    ensures forall e :: e in Generated(cfg, walk, d) ==> PandasDate(e.date)
  {
    GeneratedDatesInWindow(cfg, d, walk);
    forall e | e in Generated(cfg, walk, d)
      ensures PandasDate(e.date)
    {
      LessEqTotalOrder(Date(1677, 9, 22), cfg.start, e.date);
      LessEqTotalOrder(e.date, cfg.end, Date(2262, 4, 11));
    }
  }

  /** The source configuration: no draw makes the run fail, and the month loop visits the 23
      months from January 2024 to November 2025, each on day 1 and inside the window. */
  lemma SourceRunSucceeds(d: Draws)
    requires WellFormedDraws(SourceConfig, d)
    ensures ValidConfig(SourceConfig) && Generate(SourceConfig, d).Success?
    ensures |Walk(SourceConfig, d)| == 23
    ensures forall c :: 0 <= c < 23 ==> Walk(SourceConfig, d)[c] == MonthsAfter(Date(2024, 1, 1), c)
    ensures forall c :: 0 <= c < 23 ==>
              Walk(SourceConfig, d)[c].day == 1 && InWindow(Walk(SourceConfig, d)[c], SourceConfig.start, SourceConfig.end)
              && MonthIndex(Walk(SourceConfig, d)[c]) == MonthIndex(SourceConfig.start) + c
  {
    SourceGenerated(d);
    SourceWalk();
    var cfg := SourceConfig;
    assert cfg.start == Date(2024, 1, 1) && cfg.end == Date(2025, 11, 4);
    GenerateOutcome(cfg, d);
    assert Walk(cfg, d) == MonthWalk(Date(2024, 1, 1), Date(2025, 11, 4)).value;
  }

  /** With the source configuration every one of the 23 visited months holds exactly one
      monthly salary row, dated day 1 of that month. */
  lemma SourceMonthlySalary(d: Draws, c: nat)
    requires WellFormedDraws(SourceConfig, d)
    requires c < 23
    ensures ValidConfig(SourceConfig) && Generate(SourceConfig, d).Success? && c < |Walk(SourceConfig, d)|
    ensures CountWhere(EntriesOf(Generate(SourceConfig, d).value),
                       Salary.Within(Salary.IsMonthlySalary, Walk(SourceConfig, d)[c])) == 1
  {
    SourceRunSucceeds(d);
    var cfg := SourceConfig;
    var walk := Walk(cfg, d);
    assert Salary.FirstOfMonth(walk[c]) == walk[c];
    SourceTemplatesUntemplated();
    GenerateMonthlySalary(cfg, d, c);
  }

  /** With the source configuration the rows hold exactly 600 Food, 360 Travel, 120 Shopping
      and 72 Other transactions: no template uses those categories and none of their
      subcategories is excluded. */
  lemma SourceCategoryCounts(d: Draws)
    requires WellFormedDraws(SourceConfig, d)
    ensures ValidConfig(SourceConfig) && Generate(SourceConfig, d).Success?
    ensures CountWhere(EntriesOf(Generate(SourceConfig, d).value), RandomPass.OfCategory("Food")) == 600
    ensures CountWhere(EntriesOf(Generate(SourceConfig, d).value), RandomPass.OfCategory("Travel")) == 360
    ensures CountWhere(EntriesOf(Generate(SourceConfig, d).value), RandomPass.OfCategory("Shopping")) == 120
    ensures CountWhere(EntriesOf(Generate(SourceConfig, d).value), RandomPass.OfCategory("Other")) == 72
  {
    SourceTargetCounts();
    AvailableFood();
    SourceCategoryCount(d, 0, 600);
    AvailableTravel();
    SourceCategoryCount(d, 1, 360);
    AvailableShopping();
    SourceCategoryCount(d, 2, 120);
    AvailableOther();
    SourceCategoryCount(d, 8, 72);
  }

  /** With the source configuration every row has a positive amount. */
  lemma SourceAmountsPositive(d: Draws)
    requires WellFormedDraws(SourceConfig, d)
    ensures ValidConfig(SourceConfig) && Generate(SourceConfig, d).Success?
    ensures forall i :: 0 <= i < |Generate(SourceConfig, d).value| ==> 0 < Generate(SourceConfig, d).value[i].entry.amount
  {
    SourceRunSucceeds(d);
    Amounts.SourceCategoriesWellScaled();
    SourceAmountFacts();
    GenerateAmountsPositive(SourceConfig, d);
  }

  /** One untemplated source category none of whose subcategories is excluded: the rows hold
      it as often as its target count says. */
  lemma SourceCategoryCount(d: Draws, b: nat, n: nat)
    requires WellFormedDraws(SourceConfig, d)
    requires b < |SourceCategories| && TargetCount(SourceCategories[b].frequency) == n
    requires var name := SourceCategories[b].name;
      name == "Food" || name == "Travel" || name == "Shopping" || name == "Other"
    requires Available(SourceCategories[b].subcategories, SourceExcluded) == SourceCategories[b].subcategories
    requires |SourceCategories[b].subcategories| > 0
    ensures ValidConfig(SourceConfig) && Generate(SourceConfig, d).Success?
    ensures CountWhere(EntriesOf(Generate(SourceConfig, d).value), RandomPass.OfCategory(SourceCategories[b].name)) == n
  {
    SourceRunSucceeds(d);
    var cfg := SourceConfig;
    var cat := SourceCategories[b];
    assert cfg.categories == SourceCategories && cfg.templates == SourceTemplates;
    assert forall m :: 0 <= m < |cfg.templates| ==> cfg.templates[m].category != cat.name by {
      SourceTemplatesUntemplated();
    }
    assert RandomPass.Expected(cat, RecurringSubcategories(cfg.templates)) == n by {
      SourceExclusionSet();
    }
    GenerateCategoryCount(cfg, d, b);
  }

  /** With the source configuration each of the ten templates has exactly one row in each of
      the first 22 visited months; in the last one, November 2025, only the templates due on
      or before the 4th (the end date) have one. */
  lemma SourceTemplateEachMonth(d: Draws, c: nat, m: nat)
    requires WellFormedDraws(SourceConfig, d)
    requires c < 23 && m < |SourceTemplates|
    ensures ValidConfig(SourceConfig) && Generate(SourceConfig, d).Success? && c < |Walk(SourceConfig, d)|
    ensures CountWhere(EntriesOf(Generate(SourceConfig, d).value), Recurring.Matching(SourceTemplates[m], Walk(SourceConfig, d)[c]))
         == if c < 22 || SourceTemplates[m].dayOfMonth <= 4 then 1 else 0
  {
    SourceRunSucceeds(d);
    var cfg := SourceConfig;
    var w := Walk(cfg, d)[c];
    var t := SourceTemplates[m];
    assert cfg.templates == SourceTemplates;
    SourceTemplatesUntemplated();
    SourceTemplateDays();
    Recurring.SourceTemplatesDistinct();
    var date := Recurring.TemplateDate(w, t);
    assert date == Date(w.year, w.month, t.dayOfMonth);
    TemplateDateInWindow(cfg.start, cfg.end, w, date, c);
    GenerateTemplateCount(cfg, d, c, m);
  }

  lemma TemplateDateInWindow(start: Date, end: Date, w: Date, date: Date, c: nat)
    requires start == Date(2024, 1, 1) && end == Date(2025, 11, 4)
    requires Valid(w) && w.day == 1 && MonthIndex(w) == MonthIndex(start) + c && c < 23
    requires date.year == w.year && date.month == w.month && 1 <= date.day <= 28
    ensures InWindow(date, start, end) <==> c < 22 || date.day <= 4
  {
    MonthIndexOrder(date, end);
    MonthIndexOrder(end, date);
    MonthIndexOrder(start, date);
  }
}
