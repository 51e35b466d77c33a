/** The recurring pass: every template materialised once per visited month. */
module Recurring {
  import opened Calendar
  import opened Months
  import opened Money
  import opened Catalog
  import opened Ledger

  /** Unit draws of `random.uniform(-0.15, 0.15)`, one per (month position, template position);
      a template without variation ignores its draw. */
  ghost predicate UnitDraws(u: (nat, nat) -> real) {
    forall k, j :: IsUnit(u(k, j))
  }

  /** Recurring records are Credit only for a `Salary` template. */
  function TemplateKind(t: Template): (k: Kind)
    ensures k == Credit <==> t.category == "Salary"
  {
    if t.category == "Salary" then Credit else Debit
  }

  /** A base amount perturbed by at most 15% stays within 85%..115% of it, in cents. */
  lemma VariedWithin(base: int, v: real)
    requires 0 <= base && -0.15 <= v <= 0.15
    ensures (85 * base) as real <= (base as real + base as real * v) * 100.0 <= (115 * base) as real
  {
    var b := base as real;
    NonNegativeProduct(b, 0.15 - v);
    NonNegativeProduct(b, v + 0.15);
    assert b * (0.15 - v) == 0.15 * b - b * v;
    assert b * (v + 0.15) == b * v + 0.15 * b;
    assert (b + b * v) * 100.0 == 100.0 * b + 100.0 * (b * v);
  }

  lemma NonNegativeProduct(x: real, y: real)
    requires 0.0 <= x && 0.0 <= y
    ensures 0.0 <= x * y
  {
  }

  /** A template's amount in cents: exactly the base amount without variation, otherwise
      the base perturbed by the drawn fraction in [-0.15, 0.15] and rounded, which stays
      within 85%..115% of the base. */
  function TemplateAmount(t: Template, u: real): (r: Cents)
    requires IsUnit(u)
    ensures !t.hasVariation ==> r == 100 * t.amount
    ensures t.hasVariation && 0 <= t.amount ==> 85 * t.amount <= r <= 115 * t.amount
  {
    if t.hasVariation then
      var base := t.amount as real;
      var v := Uniform(-0.15, 0.15, u);
      assert 0 <= t.amount ==> 85 * t.amount <= RoundCents(base + base * v) <= 115 * t.amount by {
        if 0 <= t.amount {
          VariedWithin(t.amount, v);
          RoundCentsWithin(base + base * v, 85 * t.amount, 115 * t.amount);
        }
      }
      RoundCents(base + base * v)
    else 100 * t.amount
  }

  /** Day `dayOfMonth` of the cursor's month, or day 28 when that day does not exist. */
  function TemplateDate(cursor: Date, t: Template): Date
    requires Valid(cursor)
  {
    DayOrFallback(cursor, t.dayOfMonth)
  }

  /** The records of month position `k` (cursor `cursor`) for templates `ts[j..]`. */
  function MonthRecords(cursor: Date, start: Date, end: Date, ts: seq<Template>, k: nat, j: nat,
                        u: (nat, nat) -> real): seq<Entry>
    requires Valid(cursor) && UnitDraws(u)
    decreases |ts| - j
  {
    if j >= |ts| then []
    else
      var t := ts[j];
      var d := TemplateDate(cursor, t);
      (if InWindow(d, start, end) then [Entry(d, TemplateKind(t), TemplateAmount(t, u(k, j)), t.category, t.subcategory)]
       else [])
      + MonthRecords(cursor, start, end, ts, k, j + 1, u)
  }

  /** The recurring pass over the visited cursors `walk`, the first of which is month
      position `k`. */
  function RecurringPass(walk: seq<Date>, start: Date, end: Date, ts: seq<Template>, k: nat,
                         u: (nat, nat) -> real): seq<Entry>
    requires forall i :: 0 <= i < |walk| ==> Valid(walk[i])
    requires UnitDraws(u)
    decreases |walk|
  {
    if |walk| == 0 then []
    else MonthRecords(walk[0], start, end, ts, k, 0, u) + RecurringPass(walk[1..], start, end, ts, k + 1, u)
  }

  /** What a record made from template `t` in the month of `cursor` looks like. */
  predicate FollowsTemplate(e: Entry, t: Template, cursor: Date, start: Date, end: Date)
    requires Valid(cursor)
  {
    && e.category == t.category && e.subCategory == t.subcategory
    && e.date == TemplateDate(cursor, t)
    && InWindow(e.date, start, end)
    && (e.kind == Credit <==> t.category == "Salary")
    && (!t.hasVariation ==> e.amount == 100 * t.amount)
    && (t.hasVariation && 0 <= t.amount ==> 85 * t.amount <= e.amount <= 115 * t.amount)
  }

  /** A record belongs to template `t` and the month of `cursor`. */
  predicate Matches(e: Entry, t: Template, cursor: Date) {
    e.category == t.category && e.subCategory == t.subcategory
    && e.date.year == cursor.year && e.date.month == cursor.month
  }

  /** The records of template `t` in the calendar month of `cursor`. */
  function Matching(t: Template, cursor: Date): Entry -> bool {
    e => Matches(e, t, cursor)
  }

  /** No two templates share both category and subcategory. */
  predicate DistinctTemplates(ts: seq<Template>) {
    forall a, b :: 0 <= a < b < |ts| ==>
      ts[a].category != ts[b].category || ts[a].subcategory != ts[b].subcategory
  }

  lemma {:induction false} MonthRecordsSound(cursor: Date, start: Date, end: Date, ts: seq<Template>,
                                             k: nat, j: nat, u: (nat, nat) -> real)
    requires Valid(cursor) && UnitDraws(u) && j <= |ts|
    ensures forall i :: 0 <= i < |MonthRecords(cursor, start, end, ts, k, j, u)| ==>
              exists m :: j <= m < |ts|
                && FollowsTemplate(MonthRecords(cursor, start, end, ts, k, j, u)[i], ts[m], cursor, start, end)
    ensures |MonthRecords(cursor, start, end, ts, k, j, u)| <= |ts| - j
    decreases |ts| - j
  {
    if j < |ts| {
      var t := ts[j];
      var d := TemplateDate(cursor, t);
      var head := if InWindow(d, start, end) then [Entry(d, TemplateKind(t), TemplateAmount(t, u(k, j)), t.category, t.subcategory)] else [];
      var tail := MonthRecords(cursor, start, end, ts, k, j + 1, u);
      var r := MonthRecords(cursor, start, end, ts, k, j, u);
      assert r == head + tail;
      MonthRecordsSound(cursor, start, end, ts, k, j + 1, u);
      forall i | 0 <= i < |r|
        ensures exists m :: j <= m < |ts| && FollowsTemplate(r[i], ts[m], cursor, start, end)
      {
        if i < |head| {
          assert FollowsTemplate(r[i], ts[j], cursor, start, end);
        } else {
          assert r[i] == tail[i - |head|];
          var m :| j + 1 <= m < |ts| && FollowsTemplate(tail[i - |head|], ts[m], cursor, start, end);
          assert FollowsTemplate(r[i], ts[m], cursor, start, end);
        }
      }
      assert forall i :: 0 <= i < |r| ==> exists m :: j <= m < |ts| && FollowsTemplate(r[i], ts[m], cursor, start, end);
    } else {
      assert MonthRecords(cursor, start, end, ts, k, j, u) == [];
    }
  }

  /** Within one month, template `ts[m]` yields exactly one record when its date is in the
      window and none otherwise. */
  lemma {:induction false} MonthRecordsCount(cursor: Date, start: Date, end: Date, ts: seq<Template>,
                                             k: nat, j: nat, u: (nat, nat) -> real, m: nat)
    requires Valid(cursor) && UnitDraws(u) && DistinctTemplates(ts) && m < |ts|
    ensures CountWhere(MonthRecords(cursor, start, end, ts, k, j, u), Matching(ts[m], cursor))
         == (if j <= m && InWindow(TemplateDate(cursor, ts[m]), start, end) then 1 else 0)
    decreases |ts| - j
  {
    if j < |ts| {
      var t := ts[j];
      var d := TemplateDate(cursor, t);
      var head := if InWindow(d, start, end) then [Entry(d, TemplateKind(t), TemplateAmount(t, u(k, j)), t.category, t.subcategory)] else [];
      var tail := MonthRecords(cursor, start, end, ts, k, j + 1, u);
      MonthRecordsCount(cursor, start, end, ts, k, j + 1, u, m);
      CountWhereAppend(head, tail, Matching(ts[m], cursor));
    }
  }

  /** A month's records never match a cursor of another month. */
  lemma {:induction false} MonthRecordsOtherMonth(cursor: Date, other: Date, start: Date, end: Date,
                                                  ts: seq<Template>, k: nat, j: nat,
                                                  u: (nat, nat) -> real, t: Template)
    requires Valid(cursor) && UnitDraws(u) && MonthIndex(cursor) != MonthIndex(other)
    ensures CountWhere(MonthRecords(cursor, start, end, ts, k, j, u), Matching(t, other)) == 0
    decreases |ts| - j
  {
    if j < |ts| {
      var tt := ts[j];
      var d := TemplateDate(cursor, tt);
      var head := if InWindow(d, start, end) then [Entry(d, TemplateKind(tt), TemplateAmount(tt, u(k, j)), tt.category, tt.subcategory)] else [];
      var tail := MonthRecords(cursor, start, end, ts, k, j + 1, u);
      MonthRecordsOtherMonth(cursor, other, start, end, ts, k, j + 1, u, t);
      CountWhereAppend(head, tail, Matching(t, other));
    }
  }

  /** Every recurring record follows some template in some visited month: its date is the
      template's day of that month (or day 28), inside the window, never rolled into the next
      month; its amount is the base amount exactly without variation and within 85%..115% of
      it with variation; it is Debit unless the template's category is `Salary`. */
  lemma {:induction false} RecurringPassSound(walk: seq<Date>, start: Date, end: Date, ts: seq<Template>,
                                              k: nat, u: (nat, nat) -> real)
    requires forall i :: 0 <= i < |walk| ==> Valid(walk[i])
    requires UnitDraws(u)
    ensures forall i :: 0 <= i < |RecurringPass(walk, start, end, ts, k, u)| ==>
              exists c, m :: 0 <= c < |walk| && 0 <= m < |ts|
                && FollowsTemplate(RecurringPass(walk, start, end, ts, k, u)[i], ts[m], walk[c], start, end)
    decreases |walk|
  {
    if |walk| > 0 {
      var head := MonthRecords(walk[0], start, end, ts, k, 0, u);
      var tail := RecurringPass(walk[1..], start, end, ts, k + 1, u);
      var r := RecurringPass(walk, start, end, ts, k, u);
      MonthRecordsSound(walk[0], start, end, ts, k, 0, u);
      RecurringPassSound(walk[1..], start, end, ts, k + 1, u);
      forall i | 0 <= i < |r|
        ensures exists c, m :: 0 <= c < |walk| && 0 <= m < |ts| && FollowsTemplate(r[i], ts[m], walk[c], start, end)
      {
        if i < |head| {
          assert r[i] == head[i];
          var m :| 0 <= m < |ts| && FollowsTemplate(head[i], ts[m], walk[0], start, end);
          assert FollowsTemplate(r[i], ts[m], walk[0], start, end);
        } else {
          assert r[i] == tail[i - |head|];
          var c, m :| 0 <= c < |walk| - 1 && 0 <= m < |ts| && FollowsTemplate(tail[i - |head|], ts[m], walk[1..][c], start, end);
          assert walk[1..][c] == walk[c + 1];
          assert FollowsTemplate(r[i], ts[m], walk[c + 1], start, end);
        }
      }
    } else {
      assert RecurringPass(walk, start, end, ts, k, u) == [];
    }
  }

  /** Each (visited month, template) pair yields exactly one record when the template's date
      in that month lies in the window, and none otherwise. */
  lemma {:induction false} RecurringPassCount(walk: seq<Date>, start: Date, end: Date, ts: seq<Template>,
                                              k: nat, u: (nat, nat) -> real, c: nat, m: nat)
    requires forall i :: 0 <= i < |walk| ==> Valid(walk[i])
    requires UnitDraws(u) && Ascending(walk) && DistinctTemplates(ts)
    requires c < |walk| && m < |ts|
    ensures CountWhere(RecurringPass(walk, start, end, ts, k, u), Matching(ts[m], walk[c]))
         == (if InWindow(TemplateDate(walk[c], ts[m]), start, end) then 1 else 0)
    decreases |walk|
  {
    var p := Matching(ts[m], walk[c]);
    var head := MonthRecords(walk[0], start, end, ts, k, 0, u);
    var tail := RecurringPass(walk[1..], start, end, ts, k + 1, u);
    CountWhereAppend(head, tail, p);
    if c == 0 {
      MonthRecordsCount(walk[0], start, end, ts, k, 0, u, m);
      RecurringPassElsewhere(walk[1..], walk[0], start, end, ts, k + 1, u, ts[m]);
    } else {
      MonthRecordsOtherMonth(walk[0], walk[c], start, end, ts, k, 0, u, ts[m]);
      assert walk[1..][c - 1] == walk[c];
      RecurringPassCount(walk[1..], start, end, ts, k + 1, u, c - 1, m);
    }
  }

  /** Months strictly after `other`'s never match it. */
  lemma {:induction false} RecurringPassElsewhere(walk: seq<Date>, other: Date, start: Date, end: Date,
                                                  ts: seq<Template>, k: nat, u: (nat, nat) -> real, t: Template)
    requires forall i :: 0 <= i < |walk| ==> Valid(walk[i])
    requires UnitDraws(u)
    requires forall i :: 0 <= i < |walk| ==> MonthIndex(other) < MonthIndex(walk[i])
    ensures CountWhere(RecurringPass(walk, start, end, ts, k, u), Matching(t, other)) == 0
    decreases |walk|
  {
    if |walk| > 0 {
      var p := Matching(t, other);
      MonthRecordsOtherMonth(walk[0], other, start, end, ts, k, 0, u, t);
      RecurringPassElsewhere(walk[1..], other, start, end, ts, k + 1, u, t);
      CountWhereAppend(MonthRecords(walk[0], start, end, ts, k, 0, u), RecurringPass(walk[1..], start, end, ts, k + 1, u), p);
    }
  }

  /** A one-month window and the rent template alone yield one Debit of 20000.00 on the 1st,
      whatever the draws: the rent template has no variation. */
  lemma RentMonth(u: (nat, nat) -> real)
    requires UnitDraws(u)
    ensures RecurringPass([Date(2024, 1, 1)], Date(2024, 1, 1), Date(2024, 1, 31),
                          [Template("Bills", "Rent", 20000, 1, false)], 0, u)
         == [Entry(Date(2024, 1, 1), Debit, 2_000_000, "Bills", "Rent")]
  {
    var t := Template("Bills", "Rent", 20000, 1, false);
    assert TemplateDate(Date(2024, 1, 1), t) == Date(2024, 1, 1);
    assert RecurringPass([Date(2024, 1, 1)][1..], Date(2024, 1, 1), Date(2024, 1, 31), [t], 1, u) == [];
  }

  /** No two source templates share a (category, subcategory) pair. */
  lemma SourceTemplatesDistinct()
    ensures DistinctTemplates(SourceTemplates)
  {
  }

  /** A recurring record carries its template's category, so a category no template has
      never appears in the pass. */
  lemma RecurringPassCategories(walk: seq<Date>, start: Date, end: Date, ts: seq<Template>,
                                k: nat, u: (nat, nat) -> real, name: string)
    requires forall i :: 0 <= i < |walk| ==> Valid(walk[i])
    requires UnitDraws(u)
    requires forall m :: 0 <= m < |ts| ==> ts[m].category != name
    ensures forall i :: 0 <= i < |RecurringPass(walk, start, end, ts, k, u)| ==>
              RecurringPass(walk, start, end, ts, k, u)[i].category != name
  {
    var r := RecurringPass(walk, start, end, ts, k, u);
    RecurringPassSound(walk, start, end, ts, k, u);
    forall i | 0 <= i < |r|
      ensures r[i].category != name
    {
      var c, m :| 0 <= c < |walk| && 0 <= m < |ts| && FollowsTemplate(r[i], ts[m], walk[c], start, end);
    }
  }
}
