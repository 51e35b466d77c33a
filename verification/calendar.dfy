/** Proleptic Gregorian dates, as Python's `datetime` computes with them:
    validity, ordering, day ordinals, day arithmetic and `replace`. */
module Calendar {
  import opened Wrappers

  /** A calendar date; only the date part of the generator's datetimes matters. */
  datatype Date = Date(year: int, month: int, day: int)

  predicate IsLeapYear(y: int) {
    y % 4 == 0 && (y % 100 != 0 || y % 400 == 0)
  }

  function DaysInMonth(y: int, m: int): (n: int)
    requires 1 <= m <= 12
    ensures 28 <= n <= 31
    ensures n == 29 <==> m == 2 && IsLeapYear(y)
  {
    if m == 2 then (if IsLeapYear(y) then 29 else 28)
    else if m == 4 || m == 6 || m == 9 || m == 11 then 30
    else 31
  }

  /** A date `datetime` accepts (years from MINYEAR = 1 upwards). */
  predicate Valid(d: Date) {
    1 <= d.year && 1 <= d.month <= 12 && 1 <= d.day <= DaysInMonth(d.year, d.month)
  }

  /** Chronological order: lexicographic on (year, month, day). */
  predicate LessEq(a: Date, b: Date) {
    a.year < b.year || (a.year == b.year && (a.month < b.month || (a.month == b.month && a.day <= b.day)))
  }

  predicate Before(a: Date, b: Date) {
    LessEq(a, b) && a != b
  }

  predicate InWindow(d: Date, start: Date, end: Date) {
    LessEq(start, d) && LessEq(d, end)
  }

  lemma LessEqTotalOrder(a: Date, b: Date, c: Date)
    ensures LessEq(a, a)
    ensures LessEq(a, b) || LessEq(b, a)
    ensures LessEq(a, b) && LessEq(b, a) ==> a == b
    ensures LessEq(a, b) && LessEq(b, c) ==> LessEq(a, c)
  {
  }

  function YearLength(y: int): int {
    if IsLeapYear(y) then 366 else 365
  }

  /** Days in the years before `y`, as CPython's `_days_before_year`. */
  function DaysBeforeYear(y: int): int
    requires 1 <= y
  {
    var p := y - 1;
    365 * p + p / 4 - p / 100 + p / 400
  }

  /** Days in the months of year `y` before month `m`, as CPython's `_days_before_month`. */
  function DaysBeforeMonth(y: int, m: int): int
    requires 1 <= m <= 12
  {
    var table :=
      if m == 1 then 0 else if m == 2 then 31 else if m == 3 then 59
      else if m == 4 then 90 else if m == 5 then 120 else if m == 6 then 151
      else if m == 7 then 181 else if m == 8 then 212 else if m == 9 then 243
      else if m == 10 then 273 else if m == 11 then 304 else 334;
    table + (if m > 2 && IsLeapYear(y) then 1 else 0)
  }

  /** Day number with 0001-01-01 as day 1, as `date.toordinal`. */
  function Ordinal(d: Date): int
    requires Valid(d)
  {
    DaysBeforeYear(d.year) + DaysBeforeMonth(d.year, d.month) + d.day
  }

  /** `(b - a).days` for two datetimes at the same time of day. */
  function DaysBetween(a: Date, b: Date): int
    requires Valid(a) && Valid(b)
  {
    Ordinal(b) - Ordinal(a)
  }

  lemma MonthTable(y: int, m: int)
    requires 1 <= m <= 12
    ensures m < 12 ==> DaysBeforeMonth(y, m + 1) == DaysBeforeMonth(y, m) + DaysInMonth(y, m)
    ensures m == 12 ==> DaysBeforeMonth(y, m) + DaysInMonth(y, m) == YearLength(y)
  {
  }

  /** Stepping a non-negative numerator by one raises its quotient by a constant divisor
      exactly when the new numerator is a multiple of it. */
  lemma DivStep(p: int)
    requires 0 <= p
    ensures (p + 1) / 4 == p / 4 + (if (p + 1) % 4 == 0 then 1 else 0)
    ensures (p + 1) / 100 == p / 100 + (if (p + 1) % 100 == 0 then 1 else 0)
    ensures (p + 1) / 400 == p / 400 + (if (p + 1) % 400 == 0 then 1 else 0)
  {
  }

  lemma DivisibilityChain(y: int)
    ensures y % 400 == 0 ==> y % 100 == 0
    ensures y % 100 == 0 ==> y % 4 == 0
  {
  }

  /** Consecutive year boundaries are one year length apart. */
  lemma {:induction false} YearStep(y: int)
    requires 1 <= y
    ensures DaysBeforeYear(y + 1) == DaysBeforeYear(y) + YearLength(y)
  {
    var p := y - 1;
    DivStep(p);
    DivisibilityChain(y);
  }

  lemma {:induction false} YearsMonotone(y1: int, y2: int)
    requires 1 <= y1 < y2
    ensures DaysBeforeYear(y1) + YearLength(y1) <= DaysBeforeYear(y2)
    decreases y2 - y1
  {
    YearStep(y1);
    if y1 + 1 < y2 {
      YearsMonotone(y1 + 1, y2);
    }
  }

  lemma {:induction false} MonthsMonotone(y: int, m1: int, m2: int)
    requires 1 <= m1 < m2 <= 12
    ensures DaysBeforeMonth(y, m1) + DaysInMonth(y, m1) <= DaysBeforeMonth(y, m2)
    decreases m2 - m1
  {
    MonthTable(y, m1);
    if m1 + 1 < m2 {
      MonthsMonotone(y, m1 + 1, m2);
    }
  }

  /** A date's days before it within its own year stop short of the year's end. */
  lemma WithinYear(d: Date)
    requires Valid(d)
    ensures DaysBeforeMonth(d.year, d.month) + d.day <= YearLength(d.year)
  {
    if d.month < 12 {
      MonthsMonotone(d.year, d.month, 12);
    }
    MonthTable(d.year, 12);
  }

  lemma BeforeOrdinal(a: Date, b: Date)
    requires Valid(a) && Valid(b) && Before(a, b)
    ensures Ordinal(a) < Ordinal(b)
  {
    if a.year < b.year {
      WithinYear(a);
      YearsMonotone(a.year, b.year);
    } else if a.month < b.month {
      MonthsMonotone(a.year, a.month, b.month);
    }
  }

  /** Chronological order of valid dates is exactly the order of their ordinals. */
  lemma OrdinalOrder(a: Date, b: Date)
    requires Valid(a) && Valid(b)
    ensures LessEq(a, b) <==> Ordinal(a) <= Ordinal(b)
    ensures a == b <==> Ordinal(a) == Ordinal(b)
  {
    if a != b {
      if LessEq(a, b) {
        BeforeOrdinal(a, b);
      } else {
        BeforeOrdinal(b, a);
      }
    }
  }

  /** The following day, as `d + timedelta(days=1)`. */
  function NextDay(d: Date): (r: Date)
    requires Valid(d)
    ensures Valid(r) && Before(d, r)
    ensures Ordinal(r) == Ordinal(d) + 1
  {
    MonthTable(d.year, d.month);
    if d.day < DaysInMonth(d.year, d.month) then Date(d.year, d.month, d.day + 1)
    else if d.month < 12 then Date(d.year, d.month + 1, 1)
    else (YearStep(d.year); Date(d.year + 1, 1, 1))
  }

  /** `d + timedelta(days=k)` for k >= 0. */
  function AddDays(d: Date, k: nat): Date
    requires Valid(d)
    decreases k
  {
    if k == 0 then d else AddDays(NextDay(d), k - 1)
  }

  lemma {:induction false} AddDaysOrdinal(d: Date, k: nat)
    requires Valid(d)
    ensures Valid(AddDays(d, k))
    ensures Ordinal(AddDays(d, k)) == Ordinal(d) + k
    decreases k
  {
    if k > 0 {
      AddDaysOrdinal(NextDay(d), k - 1);
    }
  }

  /** `generate_transaction_date`: `start + timedelta(days=offset)` where `offset` is the draw of
      `random.randint(0, (end - start).days)`. The result lies in the closed window and is
      exactly `offset` days after `start`. */
  function TransactionDate(start: Date, end: Date, offset: nat): (r: Date)
    requires Valid(start) && Valid(end)
    requires offset <= DaysBetween(start, end)
    ensures Valid(r) && InWindow(r, start, end)
    ensures DaysBetween(start, r) == offset
  {
    AddDaysOrdinal(start, offset);
    var r := AddDays(start, offset);
    OrdinalOrder(start, r);
    OrdinalOrder(r, end);
    r
  }

  /** Every day of the window is reachable by some offset draw. */
  lemma TransactionDateOnto(start: Date, end: Date, d: Date)
    requires Valid(start) && Valid(end) && Valid(d) && InWindow(d, start, end)
    ensures 0 <= DaysBetween(start, d) <= DaysBetween(start, end)
    ensures TransactionDate(start, end, DaysBetween(start, d)) == d
  {
    OrdinalOrder(start, d);
    OrdinalOrder(d, end);
    var r := TransactionDate(start, end, DaysBetween(start, d));
    OrdinalOrder(r, d);
  }

  /** `d.replace(day=day)`: `None` stands for the `ValueError` raised on a day the month lacks. */
  function ReplaceDay(d: Date, day: int): (r: Option<Date>)
    requires Valid(d)
    ensures r.Some? <==> 1 <= day <= DaysInMonth(d.year, d.month)
    ensures r.Some? ==> Valid(r.value) && r.value == Date(d.year, d.month, day)
  {
    if 1 <= day <= DaysInMonth(d.year, d.month) then Some(Date(d.year, d.month, day)) else None
  }

  /** The recurring pass's date rule: day `day` of the cursor's month, or day 28 when
      `replace` rejects that day. The month never rolls over. */
  function DayOrFallback(cursor: Date, day: int): (r: Date)
    requires Valid(cursor)
    ensures Valid(r) && r.year == cursor.year && r.month == cursor.month
    ensures 1 <= day <= DaysInMonth(cursor.year, cursor.month) ==> r.day == day
    ensures !(1 <= day <= DaysInMonth(cursor.year, cursor.month)) ==> r.day == 28
  {
    match ReplaceDay(cursor, day)
    case Some(r) => r
    case None => Date(cursor.year, cursor.month, 28)
  }

  /** Months counted from year 0, January. */
  function MonthIndex(d: Date): int {
    d.year * 12 + (d.month - 1)
  }

  /** The (year, month) after `d`'s: December steps to January of the following year. */
  function FollowingMonth(d: Date): (r: Date)
    requires Valid(d)
    ensures 1 <= r.month <= 12 && 1 <= r.year && r.day == d.day
    ensures MonthIndex(r) == MonthIndex(d) + 1
    ensures d.month == 12 ==> r.year == d.year + 1 && r.month == 1
    ensures d.month < 12 ==> r.year == d.year && r.month == d.month + 1
  {
    if d.month == 12 then Date(d.year + 1, 1, d.day) else Date(d.year, d.month + 1, d.day)
  }

  /** The month step at the end of each month loop iteration (`replace(year=…, month=1)` or
      `replace(month=…)`); `None` stands for the `ValueError` raised when the cursor's day does
      not exist in the following month. */
  function StepMonth(d: Date): (r: Option<Date>)
    requires Valid(d)
    ensures r.Some? <==> d.day <= DaysInMonth(FollowingMonth(d).year, FollowingMonth(d).month)
    ensures r.Some? ==> Valid(r.value) && r.value == FollowingMonth(d)
  {
    var n := FollowingMonth(d);
    if d.day <= DaysInMonth(n.year, n.month) then Some(n) else None
  }

  /** A cursor on day 28 or earlier can always be stepped. */
  lemma StepMonthTotal(d: Date)
    requires Valid(d) && d.day <= 28
    ensures StepMonth(d).Some?
  {
  }

  /** Strictly later months are chronologically later whatever the days. */
  lemma MonthIndexOrder(a: Date, b: Date)
    requires 1 <= a.month <= 12 && 1 <= b.month <= 12
    ensures MonthIndex(a) < MonthIndex(b) ==> Before(a, b)
    ensures LessEq(a, b) ==> MonthIndex(a) <= MonthIndex(b)
  {
  }

  /** The fallback is day 28 even where the month has more days: a template on day 31 lands
      on 28 February 2024 although 2024 is a leap year, and on 28 April rather than 30 April. */
  lemma FallbackIsDay28()
    ensures DaysInMonth(2024, 2) == 29 && DayOrFallback(Date(2024, 2, 1), 31) == Date(2024, 2, 28)
    ensures DaysInMonth(2024, 4) == 30 && DayOrFallback(Date(2024, 4, 1), 31) == Date(2024, 4, 28)
  {
  }
}
