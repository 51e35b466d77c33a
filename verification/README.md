# Synthetic transaction generator: a Dafny model

This project models `transaction_generator.py` from the personal-finance-tracker repository.
That script writes roughly two years of synthetic bank transactions. Each transaction has an
id, a date, a Credit/Debit type, an amount, a category and a sub-category.

The script draws everything from a seeded random generator. This model turns every random
draw into an explicit parameter that is constrained to its range. Once that is done, the
generator is a pure function: configuration + draws → rows.

The model follows the script's structure:

- **Calendar** (`calendar.dfy`): proleptic Gregorian dates with CPython's ordinal arithmetic.
  - `generate_transaction_date`: the start date plus a drawn offset.
  - `replace(day=…)`: an `Option`, where `None` stands for the `ValueError`.
  - The fallback to day 28.
  - The month step, December → January of the next year.
- **Months** (`months.dfy`): the month loop `while current_date <= END_DATE`. Both the
  recurring pass and the salary pass use it.
- **Money** (`money.dfy`): amounts as integer cents, `random.uniform` over a unit draw,
  clamping, and round-half-up to cents.
- **Catalog** (`catalog.dfy`): the `CATEGORIES` dictionary in its iteration order and the
  `RECURRING_TRANSACTIONS` templates.
  - The recurring-subcategory exclusion set and the list of available subcategories.
  - The iteration count `int(frequency * 24)`.
- **Amounts** (`amounts.dfy`): `generate_amount` as a branch on the subcategory, and the
  random pass's transaction-type rule.
- **Recurring**, **Salary**, **RandomPass**: the three passes of `generate_transactions`.
- **Finalisation** (`finalise.dfy`): sort by date, then renumber ids from `START_ID`.
- **Generator** (`generator.dfy`): the whole run.
  - It returns `Result`: `Failure` for the exceptions the script can raise, `Success` with
    the final rows otherwise.
  - It includes facts about the script's own configuration (`SourceConfig`).

## How the code is followed

These behaviours are modelled as the code has them, not as a reader might expect:

- **Iteration count.** The random pass runs `int(frequency * 24)` iterations per category.
  The `24` is hard-coded and does not depend on the length of the window.
- **Sort order.** The final sort is pandas' default sort, which is not stable. The model
  sorts by insertion sort, which is one admissible order. Its contracts promise only "sorted
  by date" and "a permutation of the generated records". `DateColumnDetermined` shows that
  the date column does not depend on how ties are ordered.
- **Bonus date.** The bonus date is checked against `END_DATE` only (line 178). With a
  window that starts after the 15th of a quarter-end month, a bonus can precede
  `START_DATE` (`BonusMayPrecedeStart`). This cannot happen with the script's own start date
  of 1 January 2024 (`GenerateDatesInWindow`).
- **Invalid template day.** A template day the month lacks becomes day 28, even where the
  month has 29 or 30 days (`FallbackIsDay28`).
- **Exclusion by name.** The exclusion set holds names only. `Gym`, `Streaming` and `SIP`
  are templates of Healthcare, Entertainment and Investment themselves (lines 73-75), so
  leaving them out of those categories' random draws is what the templates intend. But
  `Insurance` is a Bills template (line 72), and matching by name also removes it from
  Healthcare. Every Bills subcategory is excluded, so the random pass never emits a Bills
  record.
- **Ids.** The ids handed out during generation are overwritten at line 254. The passes
  therefore produce id-less `Entry` records, and only `Finalise` numbers them.
- **Month loop and END's day.** The loop cursor keeps START's day of the month. When START's
  day is later than END's, the cursor for END's month is already past END, so the loop stops
  before that month. The recurring and salary passes then skip END's month, although part of
  it lies in the window (from 20 January to 10 February only January is visited).
- **Exceptions.** The script raises in four situations, and each becomes its own `Failure`:
  - `MonthStepFailed`: a month step onto a day the next month lacks, such as a start on the
    31st (`ValueError` from `replace`);
  - `EmptyWindow`: `randint(0, n)` with `n < 0`, when the window is empty but some category
    has iterations to run (`ValueError`);
  - `NoRows`: no record is generated at all, so `pd.DataFrame([])` has no
    `transaction_date` column and line 249 raises `KeyError` (`EmptyRunFails`);
  - `DateOutOfRange`: `pd.to_datetime` at line 249 raises `OutOfBoundsDatetime` for a date
    outside pandas' timestamp range, 22 September 1677 to 11 April 2262 at midnight.
  The model checks them in the order the script meets them. With the script's own dates
  none of them occurs (`SourceRunSucceeds`).

## Model

| member | source | states |
|---|---|---|
| Calendar.DaysInMonth | transaction_generator.py:124-127 | Every month has 28 to 31 days, and 29 exactly for February of a leap year. |
| Calendar.LessEqTotalOrder | transaction_generator.py:121 | Date comparison is a total order: reflexive, total, antisymmetric, transitive. |
| Calendar.OrdinalOrder | transaction_generator.py:80 | Chronological order of valid dates coincides with the order of their day ordinals, and equal ordinals mean equal dates. |
| Calendar.NextDay | transaction_generator.py:82 | Adding one day gives a valid, strictly later date whose ordinal is one more. |
| Calendar.AddDaysOrdinal | transaction_generator.py:82 | Adding k days gives a valid date exactly k ordinals later. |
| Calendar.AddDays | transaction_generator.py:82 | `d + timedelta(days=k)` by k single-day steps. Its contract is carried by Calendar.AddDaysOrdinal: a valid date exactly k ordinals later. |
| Calendar.TransactionDate | transaction_generator.py:78-82 | For any offset in 0..(end-start).days the date is valid, lies in [start, end], and is exactly `offset` days after start. |
| Calendar.TransactionDateOnto | transaction_generator.py:80-82 | Every date of the window is produced by exactly the offset equal to its distance from start. |
| Calendar.ReplaceDay | transaction_generator.py:124 | Replacing the day succeeds exactly when the day exists in that month, and then keeps year and month. |
| Calendar.DayOrFallback | transaction_generator.py:123-127 | The date stays in the cursor's year and month. It has the template day when that day exists, and day 28 otherwise. |
| Calendar.FallbackIsDay28 | transaction_generator.py:125-127 | Day 31 falls back to 28 February 2024 (a leap year) and to 28 April, never to the month's last day. |
| Calendar.FollowingMonth | transaction_generator.py:150-153 | The next month has month index one more: December goes to January of year+1, any other month to month+1 of the same year, and the day is kept. |
| Calendar.StepMonth | transaction_generator.py:150-153 | The month step succeeds exactly when the cursor's day exists in the following month, and then yields that following month. |
| Calendar.StepMonthTotal | transaction_generator.py:150-153 | A cursor on day 28 or earlier can always be stepped. |
| Months.MonthWalk | transaction_generator.py:120-153 | The cursors of the month loop, or None when a step raises. Its contracts are carried by Months.MonthWalkShape, Months.MonthWalkFails and Months.MonthWalkBounds. |
| Months.MonthsAfter | transaction_generator.py:149-153 | The k-th month after a cursor has month index k more and the cursor's day. |
| Months.MonthWalkShape | transaction_generator.py:120-121 | From a start on day 28 or earlier the loop never raises. Whenever the loop does not raise, it visits exactly the months whose cursor, on START's day, is not after END (so END's month is skipped when START's day is later than END's). Its k-th cursor is then the k-th month after the start, valid and not after END. |
| Months.MonthsAfterShift | transaction_generator.py:149-153 | Counting k months from the stepped cursor lands on the same date as counting k+1 from the cursor itself. |
| Months.MonthWalkFails | transaction_generator.py:149-153 | The loop raises exactly when, for some visited month k, START's day does not exist in month k+1 after the start. |
| Months.MonthWalkBounds | transaction_generator.py:156-157 | Every visited cursor is valid, between start and END, keeps the start's day, and the k-th has month index start+k (each month once, in order). |
| Money.Uniform | transaction_generator.py:97-101 | A uniform draw lies in [lo, hi] for a unit draw, and hits lo and hi at the unit draw's ends. |
| Money.RoundCents | transaction_generator.py:109 | The rounded amount is the nearest cent to the real amount, half a cent either way. |
| Money.RoundCentsWithin | transaction_generator.py:109 | Rounding keeps an amount inside any bounds that are whole cents. |
| Money.RoundCentsExact | transaction_generator.py:143 | Rounding an amount already in whole cents changes nothing, so the second rounding is harmless. |
| Money.Clamp | transaction_generator.py:107 | The clamped value lies in [lo, hi] and equals x when x is inside. A value below lo gives lo, and a value above hi gives hi. |
| Catalog.RecurringSubcategories | transaction_generator.py:117 | The set of template subcategory names. Its contract is carried by Catalog.RecurringSubcategoriesMembers. |
| Catalog.Available | transaction_generator.py:207-210 | The category's subcategories that are not excluded, in catalog order. Its contracts are carried by Catalog.AvailableMembers and Catalog.AvailableSplice. |
| Catalog.RecurringSubcategoriesMembers | transaction_generator.py:117 | A name is in the exclusion set exactly when some template has it as its subcategory. |
| Catalog.AvailableMembers | transaction_generator.py:207-210 | The available list holds exactly the category's subcategories that are not excluded, and is no longer than the list. |
| Catalog.TargetCount | transaction_generator.py:201 | The iteration count truncates frequency·24 toward zero, and is 0 when frequency·24 is below 1. |
| Catalog.AvailableSplice | transaction_generator.py:207-210 | A list whose middle part is excluded and whose outer parts are not keeps exactly its outer parts, in order. |
| Catalog.SourceExclusionSet | transaction_generator.py:65-76 | The exclusion set of the script's templates is the ten names Rent, Internet, Electricity, Phone, Water, Gas, Insurance, Streaming, Gym and SIP. |
| Catalog.AvailableBills | transaction_generator.py:37-41 | Every Bills subcategory is recurring, so none is available. |
| Catalog.AvailableHealthcare | transaction_generator.py:42-46 | Healthcare loses Insurance and Gym to the exclusion set, leaving Medical, Pharmacy and Wellness. |
| Catalog.AvailableEntertainment | transaction_generator.py:32-36 | Entertainment loses Streaming. |
| Catalog.AvailableInvestment | transaction_generator.py:47-51 | Investment loses SIP. |
| Catalog.AvailableFood | transaction_generator.py:17-21 | No Food subcategory is excluded. |
| Catalog.AvailableTravel | transaction_generator.py:22-26 | No Travel subcategory is excluded. |
| Catalog.AvailableShopping | transaction_generator.py:27-31 | No Shopping subcategory is excluded. |
| Catalog.AvailableOther | transaction_generator.py:57-61 | No Other subcategory is excluded. |
| Catalog.SourceTargetCounts | transaction_generator.py:201 | The script's categories run 600, 360, 120, 96, 24, 72, 48, 36 and 72 iterations, in dictionary order. |
| Catalog.SourceDistinctNames | transaction_generator.py:16-62 | The nine category names are distinct, and the eighth is Salary. |
| Catalog.SourceTemplatesUntemplated | transaction_generator.py:65-76 | No template has category Salary, Food, Travel, Shopping or Other. |
| Catalog.SourceAmountFacts | transaction_generator.py:16-76 | Every template amount and every category minimum is positive, and Monthly Salary is a subcategory of Salary only. |
| Catalog.SourceTemplateDays | transaction_generator.py:65-76 | Every template day lies between 1 and 20. |
| Amounts.GenerateAmount | transaction_generator.py:91-109 | Rent/Flight/Hotel lie in [0.7·max, max]. Coffee Shop/Fast Food/Public Transport lie in [min, 3·min]. Monthly Salary lies in [50000, 70000]. The default branch lies in [min, max] and equals the rounded sample when the sample is inside. All amounts are in cents. |
| Amounts.DefaultBranchClamped | transaction_generator.py:102-107 | In the default branch, a sample below the category's minimum yields exactly the minimum, and a sample above its maximum yields exactly the maximum, in cents. |
| Amounts.AmountWithinCategory | transaction_generator.py:91-109 | In a category whose branch ranges fit its amount range, every generated amount lies in the category's [min, max]. |
| Amounts.SourceCategoriesWellScaled | transaction_generator.py:16-62 | Every category of the script's catalog is well scaled, and the Salary range covers the Monthly Salary branch. |
| Amounts.RandomKind | transaction_generator.py:219-229 | Salary is Credit. Investment is Debit exactly when its roll is below 0.9. Other/Transfer is Credit exactly when its coin says so. Any Credit is one of these three cases. |
| Recurring.TemplateKind | transaction_generator.py:142 | A recurring record is Credit exactly when its template's category is Salary. |
| Recurring.VariedWithin | transaction_generator.py:133-134 | A variance of at most ±15% keeps base+variance within [0.85·base, 1.15·base]. |
| Recurring.TemplateAmount | transaction_generator.py:131-137 | Without variation the amount is the base exactly. With variation it lies within [0.85·base, 1.15·base]. Both are in cents. |
| Recurring.TemplateDate | transaction_generator.py:123-127 | The template's day in the cursor's month, or day 28 when that day does not exist. Its contract is carried by Calendar.DayOrFallback. |
| Recurring.MonthRecords | transaction_generator.py:122-146 | One visited month of the recurring loop over the templates. Its contracts are carried by Recurring.MonthRecordsSound, Recurring.MonthRecordsCount and Recurring.MonthRecordsOtherMonth. |
| Recurring.RecurringPass | transaction_generator.py:120-153 | The recurring loop over the visited months. Its contracts are carried by Recurring.RecurringPassSound, Recurring.RecurringPassCount and Recurring.RecurringPassElsewhere. |
| Recurring.MonthRecordsSound | transaction_generator.py:122-146 | Every record of one month follows one of the remaining templates: its category, subcategory, fallback date inside the window, kind and amount. |
| Recurring.MonthRecordsCount | transaction_generator.py:122-146 | With distinct templates, a month holds one record of a template exactly when its date is inside the window. |
| Recurring.MonthRecordsOtherMonth | transaction_generator.py:122-127 | A month's records never fall in another month. |
| Recurring.RecurringPassSound | transaction_generator.py:120-153 | Every recurring record follows some template in some visited month. |
| Recurring.RecurringPassCount | transaction_generator.py:120-153 | For each visited month and each template, the pass holds exactly one matching record if the template's date in that month is inside the window, and none otherwise. |
| Recurring.RecurringPassElsewhere | transaction_generator.py:120-153 | The pass has no records for a month before every visited month. |
| Recurring.RentMonth | transaction_generator.py:66 | A one-month window with the Rent template gives exactly one Debit of 20000.00 on the 1st, whatever the draws. |
| Recurring.SourceTemplatesDistinct | transaction_generator.py:65-76 | No two templates share a (category, subcategory) pair. |
| Salary.FirstOfMonth | transaction_generator.py:158 | The salary date is day 1 of the cursor's month and is not after the cursor. |
| Salary.BonusDate | transaction_generator.py:174-177 | The bonus date is day 15+offset, from 15 to 28, of the cursor's month. |
| Salary.SalaryMonth | transaction_generator.py:158-187 | One visited month of the salary loop: the monthly salary, then the possible bonus. Its contracts are carried by Salary.SalaryMonthSound, Salary.SalaryMonthCounts and Salary.SalaryMonthInMonth. |
| Salary.SalaryPass | transaction_generator.py:156-193 | The salary loop over the visited months. Its contracts are carried by Salary.SalaryPassSound and Salary.SalaryPassCounts. |
| Salary.SalaryMonthSound | transaction_generator.py:158-187 | Each salary-loop record is a Salary Credit in the cursor's month. A monthly salary is dated day 1 inside the window, amount 55000–65000. A bonus or freelance payment is in a quarter-end month, day 15–28, not after END, amount 20000–50000. |
| Salary.SalaryPassSound | transaction_generator.py:156-193 | Every record of the salary pass has that shape for some visited month. |
| Salary.SalaryMonthCounts | transaction_generator.py:158-187 | One month yields one monthly salary exactly when day 1 is in the window, and one bonus exactly when the bonus fires. |
| Salary.SalaryMonthInMonth | transaction_generator.py:158-187 | Every record of one month is dated in that month. |
| Salary.SalaryPassMonth | transaction_generator.py:156-193 | The pass's records in a visited month are that month's own records. |
| Salary.SalaryPassElsewhere | transaction_generator.py:156-193 | The pass has no records for a month before every visited month. |
| Salary.SalaryPassCounts | transaction_generator.py:156-193 | For each visited month, the pass holds exactly one monthly salary if its day 1 is in the window, and exactly one bonus when the bonus fires. |
| Salary.BonusMayPrecedeStart | transaction_generator.py:173-178 | With a window starting 20 March 2024, a bonus drawn for 15 March is recorded although it precedes the window, while the 1 March salary is not. |
| RandomPass.Iteration | transaction_generator.py:204-238 | One iteration of a category's loop. Its contract is carried by RandomPass.IterationShape. |
| RandomPass.CategoryRun | transaction_generator.py:203-239 | A category's iterations. Its contracts are carried by RandomPass.CategoryRunShape and RandomPass.CategoryRunCount. |
| RandomPass.RandomPassFrom | transaction_generator.py:196-239 | The random pass over the catalog in dictionary order. Its contracts are carried by RandomPass.RandomPassSound and RandomPass.RandomPassCount. |
| RandomPass.RandomPassUnfold | transaction_generator.py:196-203 | The pass is the current category's iterations followed by the pass over the remaining categories. A category with iterations implies a non-empty window. |
| RandomPass.IterationShape | transaction_generator.py:204-238 | An iteration emits nothing when no subcategory is available, and otherwise exactly one record of the required shape. |
| RandomPass.CategoryRunShape | transaction_generator.py:203-239 | A category's run emits one record per iteration (none when nothing is available). Each record has the category's name, a non-excluded subcategory of it, a date in the window, the type rule and the amount bounds. |
| RandomPass.RandomPassSound | transaction_generator.py:196-239 | Every random-pass record is shaped by some non-Salary category: a non-recurring subcategory, a date in the window, Credit only for Investment or Other/Transfer, an amount within range. |
| RandomPass.RandomPassCountStep | transaction_generator.py:196-216 | A name's count over the pass from position c is what category c contributes to it (its expected count when the names agree, nothing otherwise) plus the count over the rest. |
| RandomPass.RandomPassCountFrom | transaction_generator.py:196-216 | Under each name, the pass holds exactly the records the categories of that name are expected to contribute. |
| RandomPass.ExpectedFromDistinct | transaction_generator.py:16-62 | With distinct category names, only the category itself contributes under its name. |
| RandomPass.RandomPassCount | transaction_generator.py:196-216 | With distinct names, each category contributes exactly int(frequency·24) records. Salary and fully excluded categories contribute none. |
| RandomPass.CategoryRunCount | transaction_generator.py:197-216 | A category's run holds only that category's records, as many as it is expected to emit. |
| Finalisation.Insert | transaction_generator.py:250 | Inserting into a date-sorted sequence keeps it sorted and adds exactly the new record. |
| Finalisation.SortByDate | transaction_generator.py:250 | The sorted output is ordered by date and is a permutation of the input. |
| Finalisation.Renumber | transaction_generator.py:254 | Row i gets id START_ID+i and keeps its record. |
| Finalisation.Finalise | transaction_generator.py:248-254 | The output has as many rows as records were generated. Ids are START_ID+i in row order, hence strictly increasing and contiguous. Dates are non-decreasing. The records are a permutation of the generated ones. |
| Finalisation.DatesOfPermutation | transaction_generator.py:249-250 | Rearranging records rearranges their dates alike. |
| Finalisation.SortedDatesUnique | transaction_generator.py:250 | Two sorted date sequences with the same dates are equal. |
| Finalisation.DateColumnDetermined | transaction_generator.py:250 | Any date-sorted permutation of the records has the same date column as the model's output, so the unstable sort leaves only the order of equal-dated rows open. |
| Finalisation.CountWherePermutation | transaction_generator.py:248-254 | Sorting does not change how many rows satisfy any predicate. |
| Generator.Generated | transaction_generator.py:111-241 | The three passes' records in generation order. Its contracts are carried by Generator.GeneratedShaped, Generator.GeneratedDatesInWindow, Generator.GeneratedMonthlySalary, Generator.GeneratedCategoryCount and Generator.GeneratedTemplateCount. |
| Generator.Transactions | transaction_generator.py:111-241 | `generate_transactions()`: the records, or the exception a pass raises. Its contract is carried by Generator.GenerateOutcome. |
| Generator.Generate | transaction_generator.py:245-254 | The whole run up to the CSV. Its contracts are carried by Generator.GenerateOutcome, Generator.GenerateRows, Generator.GenerateRowsShaped and Generator.GenerateDatesInWindow. |
| Generator.GenerateOutcome | transaction_generator.py:120-249 | The run fails with MonthStepFailed exactly when a month step raises, with EmptyWindow exactly when the random pass must draw from an empty window, with NoRows exactly when the passes generate nothing, and with DateOutOfRange exactly when a generated date is outside pandas' range. It succeeds exactly when the passes yield a non-empty list inside that range. MonthStepFailed happens exactly when some visited month's successor lacks START's day (through Months.MonthWalkFails). The passes succeed exactly when no such month exists and the window is usable. With a start on day 28 or earlier and a usable window, the passes never raise. |
| Generator.EmptyRunFails | transaction_generator.py:244-249 | A 2–3 January window with no categories and no templates generates no record, so the run fails with NoRows whatever the draws. |
| Generator.TransactionsFromFirstOfMonth | transaction_generator.py:156-170 | A window inside pandas' range that starts on a month's day 1, with no Salary template, makes the passes succeed with at least the first salary, and keeps every record inside pandas' range. |
| Generator.SourceGenerated | transaction_generator.py:11-12 | With the script's configuration the passes raise nothing, generate at least one record, and keep every date inside pandas' range. |
| Generator.GeneratedDatesInWindow | transaction_generator.py:129 | No generated record is dated after END_DATE. With a start on day 15 or earlier, none precedes START_DATE either. |
| Generator.Walk | transaction_generator.py:120-121 | The visited cursors of a successful run are valid, inside the window and strictly ascending by month. |
| Generator.GenerateRows | transaction_generator.py:248-254 | The rows have ids START_ID+i, are sorted by date, and are a permutation of the three passes' records. |
| Generator.GeneratedShaped | transaction_generator.py:111-241 | Every generated record comes from one of the three passes and has that pass's shape. |
| Generator.GenerateRowsShaped | transaction_generator.py:111-254 | Every output row has the shape of one of the three passes. |
| Generator.GenerateDatesInWindow | transaction_generator.py:129 | No row is dated after END_DATE. With a start on day 15 or earlier (lines 159, 178, 204), no row precedes START_DATE either. |
| Generator.GenerateSalaryIsCredit | transaction_generator.py:142 | Every row of category Salary is a Credit (also lines 165, 182, 220-221). |
| Generator.GenerateAmountsPositive | transaction_generator.py:91-241 | With positive template amounts, well-scaled categories with positive minimums, and Monthly Salary only under Salary, every row of a successful run has a positive amount. |
| Generator.GenerateMonthlySalary | transaction_generator.py:156-170 | When no template is of category Salary, each visited month holds exactly one monthly salary row if its day 1 is in the window, and none otherwise. |
| Generator.GenerateCategoryCount | transaction_generator.py:196-216 | A non-Salary category that no template uses appears in the rows exactly as often as its expected iteration count. |
| Generator.GenerateTemplateCount | transaction_generator.py:117-146 | With distinct non-Salary templates, each visited month holds exactly one row of each template whose date is in the window, and none otherwise. The random pass never draws a recurring subcategory. |
| Generator.GeneratedMonthlySalary | transaction_generator.py:156-170 | Before sorting, with no Salary template, each visited month holds exactly one monthly salary record if its day 1 is in the window, and none otherwise. |
| Generator.GeneratedCategoryCount | transaction_generator.py:196-216 | Before sorting, a non-Salary category that no template uses has exactly its expected number of records. |
| Generator.GeneratedTemplateCount | transaction_generator.py:117-146 | Before sorting, with distinct non-Salary templates, each visited month holds one record of a template exactly when its date is in the window. |
| Generator.SourceRunSucceeds | transaction_generator.py:11-12 | The script's configuration never raises. It visits the 23 months January 2024 – November 2025, each on day 1 and inside the window. |
| Generator.SourceAmountsPositive | transaction_generator.py:11-109 | With the script's configuration the run succeeds, and every row has a positive amount. |
| Generator.SourceMonthlySalary | transaction_generator.py:156-170 | With the script's configuration, each of the 23 visited months holds exactly one monthly salary row. |
| Generator.SourceCategoryCounts | transaction_generator.py:196-216 | With the script's configuration, the rows hold exactly 600 Food, 360 Travel, 120 Shopping and 72 Other transactions. |
| Generator.SourceTemplateEachMonth | transaction_generator.py:120-146 | With the script's configuration, each template has exactly one row in each of the first 22 months. In November 2025 only the templates due by the 4th have one. |

## Left out

- The random draws themselves are not modelled: seeding (lines 7-8), `random.uniform`, `np.random.lognormal`, `randint`, `random.choice`, and the probabilities 0.2, 0.9 and 0.5. Each draw is a parameter constrained to its range: unit draws in [0, 1], offsets within the window, a choice index taken modulo the list length. Distributional claims cannot be stated this way.
- The order in which the generator consumes draws is not modelled. Draws are indexed by position (month, template, category, iteration), so no claim depends on it.
- Amounts are not floats. They are integer cents, rounded half up. Binary floating point and `round`'s round-half-to-even on the float's exact value are not modelled.
- Amounts.GenerateAmount: the log-normal sample is any real, clamped. Its log-normal distribution and the `np.log` of the mean are not modelled.
- The text format of `strftime('%d/%m/%Y')` and its parse by `pd.to_datetime` (lines 141, 249) are not modelled. Dates stay structured, so the format round trip is not stated. Only the parse's range check is modelled (`DateOutOfRange`).
- The DataFrame, the statistics and summary printing (lines 244, 256-275) and the CSV write (lines 277-280) are presentation and file output.
- `add_time_patterns` (lines 84-89) and the unused `std` (line 105) are never used to build a row.
- Time of day is not modelled; only the date part of the datetimes matters to every comparison the script makes.
- Year 9999 (`MAXYEAR`) is not modelled. Years are unbounded above. Past it the script raises `ValueError` from the month step's `replace(year=year + 1, month=1)` (lines 151, 191). That error is not modelled. A date that late is also past pandas' range, so such a run ends in `NoRows` (when it generates nothing) or `DateOutOfRange` instead of the script's `ValueError`.
- The order of equal-dated rows after the sort is not modelled, because pandas' default sort does not fix it. Finalisation.SortByDate uses one admissible order, and the contracts promise only sorted + permutation.
- Generator.GenerateMonthlySalary and Generator.GenerateTemplateCount assume no template has category Salary. A Salary template would add rows matching the same predicates, and the script's templates have none.
- Calendar.TransactionDate requires the offset to be within the window. An empty window is handled before any draw, in Generator.Generate's EmptyWindow outcome.
