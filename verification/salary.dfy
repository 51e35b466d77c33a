/** The salary pass: a monthly salary on day 1 of every visited month and an occasional
    bonus or freelance payment in quarter-end months. */
module Salary {
  import opened Calendar
  import opened Months
  import opened Money
  import opened Ledger

  /** The draws of one month of the salary loop: the unit draw of the salary amount, the
      `random.random()` compared with 0.2, the `randint` offset of the bonus date, the unit draw
      of the bonus amount and the choice between Bonus and Freelance. */
  datatype SalaryDraw = SalaryDraw(salary: real, bonusRoll: real, bonusOffset: nat, bonusAmount: real,
                                   freelance: bool)

  /** Draws within their ranges: unit draws in [0, 1], the bonus offset within the 13 days
      from day 15 to day 28. */
  ghost predicate WellFormed(d: nat -> SalaryDraw) {
    forall k :: IsUnit(d(k).salary) && IsUnit(d(k).bonusAmount) && d(k).bonusOffset <= 13
  }

  predicate IsQuarterEnd(month: int) {
    month == 3 || month == 6 || month == 9 || month == 12
  }

  /** The record is in the calendar month of `cursor`. */
  predicate InMonth(e: Entry, cursor: Date) {
    e.date.year == cursor.year && e.date.month == cursor.month
  }

  /** The records satisfying `p` in the calendar month of `cursor`. */
  function Within(p: Entry -> bool, cursor: Date): Entry -> bool {
    e => p(e) && InMonth(e, cursor)
  }

  predicate IsMonthlySalary(e: Entry) {
    e.category == "Salary" && e.subCategory == "Monthly Salary"
  }

  predicate IsBonus(e: Entry) {
    e.category == "Salary" && (e.subCategory == "Bonus" || e.subCategory == "Freelance")
  }

  /** Day 1 of the cursor's month, the salary date. */
  function FirstOfMonth(cursor: Date): (r: Date)
    requires Valid(cursor)
    ensures Valid(r) && r.year == cursor.year && r.month == cursor.month && r.day == 1
    ensures LessEq(r, cursor)
  {
    Date(cursor.year, cursor.month, 1)
  }

  /** The bonus date: a window date drawn between day 15 and day 28 of the cursor's month,
      `offset` days after the 15th. */
  function BonusDate(cursor: Date, offset: nat): (r: Date)
    requires Valid(cursor) && offset <= 13
    ensures Valid(r) && r.year == cursor.year && r.month == cursor.month
    ensures 15 <= r.day <= 28 && r.day == 15 + offset
  {
    var from, to := Date(cursor.year, cursor.month, 15), Date(cursor.year, cursor.month, 28);
    TransactionDate(from, to, offset)
  }

  /** The bonus branch is taken and its date passes the `bonus_date <= END_DATE` test. */
  predicate BonusFires(cursor: Date, end: Date, d: SalaryDraw)
    requires Valid(cursor) && d.bonusOffset <= 13
  {
    IsQuarterEnd(cursor.month) && d.bonusRoll < 0.2 && LessEq(BonusDate(cursor, d.bonusOffset), end)
  }

  /** The records of one iteration of the salary loop. */
  function SalaryMonth(cursor: Date, start: Date, end: Date, d: SalaryDraw): seq<Entry>
    requires Valid(cursor) && IsUnit(d.salary) && IsUnit(d.bonusAmount) && d.bonusOffset <= 13
  {
    var payday := FirstOfMonth(cursor);
    var salary :=
      if InWindow(payday, start, end) then
        [Entry(payday, Credit, RoundCents(Uniform(55000.0, 65000.0, d.salary)), "Salary", "Monthly Salary")]
      else [];
    var bonus :=
      if IsQuarterEnd(cursor.month) && d.bonusRoll < 0.2 then
        var date := BonusDate(cursor, d.bonusOffset);
        if LessEq(date, end) then
          [Entry(date, Credit, RoundCents(Uniform(20000.0, 50000.0, d.bonusAmount)), "Salary",
                 if d.freelance then "Freelance" else "Bonus")]
        else []
      else [];
    salary + bonus
  }

  /** The salary pass over the visited cursors `walk`, the first of which is month position `k`. */
  function SalaryPass(walk: seq<Date>, start: Date, end: Date, k: nat, d: nat -> SalaryDraw): seq<Entry>
    requires forall i :: 0 <= i < |walk| ==> Valid(walk[i])
    requires WellFormed(d)
    decreases |walk|
  {
    if |walk| == 0 then []
    else SalaryMonth(walk[0], start, end, d(k)) + SalaryPass(walk[1..], start, end, k + 1, d)
  }

  /** What a salary-pass record looks like: always a Credit of category `Salary`; a monthly
      salary is dated day 1 of a visited month inside the window with an amount in
      55000..65000; a bonus or freelance payment falls in a quarter-end month between day 15
      and day 28, no later than `end`, with an amount in 20000..50000. */
  predicate SalaryShaped(e: Entry, cursor: Date, start: Date, end: Date)
  {
    && e.category == "Salary" && e.kind == Credit
    && e.date.year == cursor.year && e.date.month == cursor.month
    && (  (e.subCategory == "Monthly Salary" && e.date.day == 1 && InWindow(e.date, start, end)
           && 5_500_000 <= e.amount <= 6_500_000)
       || ((e.subCategory == "Bonus" || e.subCategory == "Freelance")
           && IsQuarterEnd(e.date.month) && 15 <= e.date.day <= 28 && LessEq(e.date, end)
           && 2_000_000 <= e.amount <= 5_000_000))
  }

  lemma SalaryMonthSound(cursor: Date, start: Date, end: Date, d: SalaryDraw)
    requires Valid(cursor) && IsUnit(d.salary) && IsUnit(d.bonusAmount) && d.bonusOffset <= 13
    ensures forall i :: 0 <= i < |SalaryMonth(cursor, start, end, d)| ==>
              SalaryShaped(SalaryMonth(cursor, start, end, d)[i], cursor, start, end)
  {
    RoundCentsWithin(Uniform(55000.0, 65000.0, d.salary), 5_500_000, 6_500_000);
    RoundCentsWithin(Uniform(20000.0, 50000.0, d.bonusAmount), 2_000_000, 5_000_000);
  }

  /** Every salary-pass record is shaped as `SalaryShaped` says, for some visited month. */
  lemma {:induction false} SalaryPassSound(walk: seq<Date>, start: Date, end: Date, k: nat, d: nat -> SalaryDraw)
    requires forall i :: 0 <= i < |walk| ==> Valid(walk[i])
    requires WellFormed(d)
    ensures forall i :: 0 <= i < |SalaryPass(walk, start, end, k, d)| ==>
              exists c :: 0 <= c < |walk| && SalaryShaped(SalaryPass(walk, start, end, k, d)[i], walk[c], start, end)
    decreases |walk|
  {
    if |walk| > 0 {
      var head := SalaryMonth(walk[0], start, end, d(k));
      var tail := SalaryPass(walk[1..], start, end, k + 1, d);
      var r := SalaryPass(walk, start, end, k, d);
      assert r == head + tail;
      SalaryMonthSound(walk[0], start, end, d(k));
      SalaryPassSound(walk[1..], start, end, k + 1, d);
      forall i | 0 <= i < |r|
        ensures exists c :: 0 <= c < |walk| && SalaryShaped(r[i], walk[c], start, end)
      {
        if i < |head| {
          assert SalaryShaped(r[i], walk[0], start, end);
        } else {
          assert r[i] == tail[i - |head|];
          var c :| 0 <= c < |walk| - 1 && SalaryShaped(tail[i - |head|], walk[1..][c], start, end);
          assert SalaryShaped(r[i], walk[c + 1], start, end);
        }
      }
    } else {
      assert SalaryPass(walk, start, end, k, d) == [];
    }
  }

  /** One month yields exactly one monthly salary when day 1 is inside the window, and a
      bonus exactly when the bonus branch fires; all its records lie in its own month. */
  lemma SalaryMonthCounts(cursor: Date, start: Date, end: Date, d: SalaryDraw)
    requires Valid(cursor) && IsUnit(d.salary) && IsUnit(d.bonusAmount) && d.bonusOffset <= 13
    ensures CountWhere(SalaryMonth(cursor, start, end, d), IsMonthlySalary)
         == (if InWindow(FirstOfMonth(cursor), start, end) then 1 else 0)
    ensures CountWhere(SalaryMonth(cursor, start, end, d), IsBonus)
         == (if BonusFires(cursor, end, d) then 1 else 0)
  {
    var payday := FirstOfMonth(cursor);
    var salary :=
      if InWindow(payday, start, end) then
        [Entry(payday, Credit, RoundCents(Uniform(55000.0, 65000.0, d.salary)), "Salary", "Monthly Salary")]
      else [];
    var bonus := SalaryMonth(cursor, start, end, d)[|salary|..];
    assert SalaryMonth(cursor, start, end, d) == salary + bonus;
    CountWhereAppend(salary, bonus, IsMonthlySalary);
    CountWhereAppend(salary, bonus, IsBonus);
  }

  lemma SalaryMonthInMonth(cursor: Date, start: Date, end: Date, d: SalaryDraw)
    requires Valid(cursor) && IsUnit(d.salary) && IsUnit(d.bonusAmount) && d.bonusOffset <= 13
    ensures forall i :: 0 <= i < |SalaryMonth(cursor, start, end, d)| ==>
              InMonth(SalaryMonth(cursor, start, end, d)[i], cursor)
  {
  }

  /** Counting the records of a predicate within the month of `walk[c]` over the whole pass
      sees only that month's iteration. */
  lemma {:induction false} SalaryPassMonth(walk: seq<Date>, start: Date, end: Date, k: nat,
                                           d: nat -> SalaryDraw, c: nat, p: Entry -> bool)
    requires forall i :: 0 <= i < |walk| ==> Valid(walk[i])
    requires WellFormed(d) && Ascending(walk) && c < |walk|
    ensures CountWhere(SalaryPass(walk, start, end, k, d), Within(p, walk[c]))
         == CountWhere(SalaryMonth(walk[c], start, end, d(k + c)), p)
    decreases |walk|
  {
    var head := SalaryMonth(walk[0], start, end, d(k));
    var tail := SalaryPass(walk[1..], start, end, k + 1, d);
    assert SalaryPass(walk, start, end, k, d) == head + tail;
    CountWhereAppend(head, tail, Within(p, walk[c]));
    SalaryMonthInMonth(walk[0], start, end, d(k));
    if c == 0 {
      SameMonthCount(head, walk[0], p);
      LaterMonthsElsewhere(walk, start, end, k, d, p);
    } else {
      OtherMonthCount(head, walk[0], walk[c], p);
      SalaryPassMonthStep(walk, start, end, k, d, c, p);
    }
  }

  lemma {:induction false} SalaryPassMonthStep(walk: seq<Date>, start: Date, end: Date, k: nat,
                                               d: nat -> SalaryDraw, c: nat, p: Entry -> bool)
    requires forall i :: 0 <= i < |walk| ==> Valid(walk[i])
    requires WellFormed(d) && Ascending(walk) && 0 < c < |walk|
    ensures CountWhere(SalaryPass(walk[1..], start, end, k + 1, d), Within(p, walk[c]))
         == CountWhere(SalaryMonth(walk[c], start, end, d(k + c)), p)
    decreases |walk|, 0
  {
    assert walk[1..][c - 1] == walk[c];
    assert Ascending(walk[1..]);
    SalaryPassMonth(walk[1..], start, end, k + 1, d, c - 1, p);
  }

  /** The months after the first visited one never count records of the first. */
  lemma LaterMonthsElsewhere(walk: seq<Date>, start: Date, end: Date, k: nat, d: nat -> SalaryDraw,
                             p: Entry -> bool)
    requires forall i :: 0 <= i < |walk| ==> Valid(walk[i])
    requires WellFormed(d) && Ascending(walk) && 0 < |walk|
    ensures CountWhere(SalaryPass(walk[1..], start, end, k + 1, d), Within(p, walk[0])) == 0
  {
    forall i | 0 <= i < |walk[1..]|
      ensures MonthIndex(walk[0]) < MonthIndex(walk[1..][i])
    {
      assert walk[1..][i] == walk[i + 1];
    }
    SalaryPassElsewhere(walk[1..], walk[0], start, end, k + 1, d, p);
  }

  lemma {:induction false} SameMonthCount(s: seq<Entry>, cursor: Date, p: Entry -> bool)
    requires forall i :: 0 <= i < |s| ==> InMonth(s[i], cursor)
    ensures CountWhere(s, Within(p, cursor)) == CountWhere(s, p)
  {
    if |s| > 0 {
      SameMonthCount(s[1..], cursor, p);
    }
  }

  lemma {:induction false} OtherMonthCount(s: seq<Entry>, cursor: Date, other: Date, p: Entry -> bool)
    requires forall i :: 0 <= i < |s| ==> InMonth(s[i], cursor)
    requires MonthIndex(cursor) != MonthIndex(other)
    ensures CountWhere(s, Within(p, other)) == 0
  {
    if |s| > 0 {
      OtherMonthCount(s[1..], cursor, other, p);
    }
  }

  lemma {:induction false} SalaryPassElsewhere(walk: seq<Date>, other: Date, start: Date, end: Date, k: nat,
                                               d: nat -> SalaryDraw, p: Entry -> bool)
    requires forall i :: 0 <= i < |walk| ==> Valid(walk[i])
    requires WellFormed(d)
    requires forall i :: 0 <= i < |walk| ==> MonthIndex(other) < MonthIndex(walk[i])
    ensures CountWhere(SalaryPass(walk, start, end, k, d), Within(p, other)) == 0
    decreases |walk|
  {
    if |walk| > 0 {
      var head := SalaryMonth(walk[0], start, end, d(k));
      SalaryMonthInMonth(walk[0], start, end, d(k));
      OtherMonthCount(head, walk[0], other, p);
      SalaryPassElsewhere(walk[1..], other, start, end, k + 1, d, p);
      CountWhereAppend(head, SalaryPass(walk[1..], start, end, k + 1, d), Within(p, other));
    }
  }

  /** Each visited month holds exactly one monthly salary when its day 1 lies in the window
      (none otherwise), and exactly one bonus or freelance payment when the bonus branch fires
      (none otherwise). */
  lemma SalaryPassCounts(walk: seq<Date>, start: Date, end: Date, k: nat, d: nat -> SalaryDraw, c: nat)
    requires forall i :: 0 <= i < |walk| ==> Valid(walk[i])
    requires WellFormed(d) && Ascending(walk) && c < |walk|
    ensures CountWhere(SalaryPass(walk, start, end, k, d), Within(IsMonthlySalary, walk[c]))
         == (if InWindow(FirstOfMonth(walk[c]), start, end) then 1 else 0)
    ensures CountWhere(SalaryPass(walk, start, end, k, d), Within(IsBonus, walk[c]))
         == (if BonusFires(walk[c], end, d(k + c)) then 1 else 0)
  {
    SalaryPassMonth(walk, start, end, k, d, c, IsMonthlySalary);
    SalaryPassMonth(walk, start, end, k, d, c, IsBonus);
    SalaryMonthCounts(walk[c], start, end, d(k + c));
  }

  /** The bonus date is checked against `end` only: with a window starting on 20 March 2024,
      a bonus drawn for 15 March is still recorded, before the window, while the monthly
      salary of 1 March is not. */
  lemma BonusMayPrecedeStart(d: SalaryDraw)
    requires IsUnit(d.salary) && IsUnit(d.bonusAmount)
    requires d.bonusRoll < 0.2 && d.bonusOffset == 0
    ensures var r := SalaryMonth(Date(2024, 3, 20), Date(2024, 3, 20), Date(2024, 3, 31), d);
      |r| == 1 && r[0].date == Date(2024, 3, 15) && IsBonus(r[0])
      && Before(r[0].date, Date(2024, 3, 20))
  {
    assert BonusDate(Date(2024, 3, 20), 0) == Date(2024, 3, 15);
  }

  /** Every record of the salary pass is a Credit of category `Salary`. */
  lemma SalaryPassCategory(walk: seq<Date>, start: Date, end: Date, k: nat, d: nat -> SalaryDraw)
    requires forall i :: 0 <= i < |walk| ==> Valid(walk[i])
    requires WellFormed(d)
    ensures forall i :: 0 <= i < |SalaryPass(walk, start, end, k, d)| ==>
              SalaryPass(walk, start, end, k, d)[i].category == "Salary"
              && SalaryPass(walk, start, end, k, d)[i].kind == Credit
  {
    var r := SalaryPass(walk, start, end, k, d);
    SalaryPassSound(walk, start, end, k, d);
    forall i | 0 <= i < |r|
      ensures r[i].category == "Salary" && r[i].kind == Credit
    {
      var c :| 0 <= c < |walk| && SalaryShaped(r[i], walk[c], start, end);
    }
  }
}
