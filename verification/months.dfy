/** The month loop shared by the recurring and the salary passes: a cursor that starts at the
    window start and steps one month at a time while it is not after the window end. */
module Months {
  import opened Wrappers
  import opened Calendar

  /** The cursors the loop `while current_date <= END_DATE` visits, in order; `None` when a
      month step raises (the cursor's day is missing from the following month). */
  function MonthWalk(cursor: Date, end: Date): (r: Option<seq<Date>>)
    requires Valid(cursor) && Valid(end)
    decreases MonthIndex(end) - MonthIndex(cursor) + 1
  {
    if !LessEq(cursor, end) then Some([])
    else
      MonthIndexOrder(cursor, end);
      match StepMonth(cursor)
      case None => None
      case Some(next) =>
        match MonthWalk(next, end)
        case None => None
        case Some(rest) => Some([cursor] + rest)
  }

  /** Cursors in strictly increasing month order. */
  predicate Ascending(walk: seq<Date>) {
    forall a, b :: 0 <= a < b < |walk| ==> MonthIndex(walk[a]) < MonthIndex(walk[b])
  }

  /** Number of months from `cursor`'s on whose cursor day is not after `end`. */
  function MonthsUntil(cursor: Date, end: Date): nat {
    var n := MonthIndex(end) - MonthIndex(cursor) + (if cursor.day <= end.day then 1 else 0);
    if n < 0 then 0 else n
  }

  /** The month `k` months after `cursor`'s, on the cursor's day. The step is written out on
      the year and month rather than through `FollowingMonth`, because the intermediate dates
      need not exist (day 31 in a 30-day month) while the year and month still advance. */
  function MonthsAfter(cursor: Date, k: nat): (r: Date)
    requires Valid(cursor)
    ensures MonthIndex(r) == MonthIndex(cursor) + k && r.day == cursor.day
    ensures 1 <= r.year && 1 <= r.month <= 12
    decreases k
  {
    if k == 0 then cursor
    else
      var p := MonthsAfter(cursor, k - 1);
      if p.month == 12 then Date(p.year + 1, 1, p.day) else Date(p.year, p.month + 1, p.day)
  }

  /** The month step out of the `k`-th cursor after `cursor` raises: the cursor's day is
      missing from the month after it. */
  predicate StepFailsAt(cursor: Date, k: nat)
    requires Valid(cursor)
  {
    cursor.day > DaysInMonth(MonthsAfter(cursor, k + 1).year, MonthsAfter(cursor, k + 1).month)
  }

  /** A successful walk visits exactly the months whose cursor is not after `end`, each once
      (month indices strictly increase), and its k-th cursor is the k-th month after the start
      on the start's day. A cursor day every month has (day 28 or earlier) makes the walk
      succeed. */
  lemma {:induction false} MonthWalkShape(cursor: Date, end: Date)
    requires Valid(cursor) && Valid(end)
    ensures cursor.day <= 28 ==> MonthWalk(cursor, end).Some?
    ensures MonthWalk(cursor, end).Some? ==>
              && |MonthWalk(cursor, end).value| == MonthsUntil(cursor, end)
              && forall k :: 0 <= k < |MonthWalk(cursor, end).value| ==>
                   MonthWalk(cursor, end).value[k] == MonthsAfter(cursor, k)
                   && Valid(MonthWalk(cursor, end).value[k])
                   && LessEq(MonthWalk(cursor, end).value[k], end)
    decreases MonthIndex(end) - MonthIndex(cursor) + 1
  {
    if LessEq(cursor, end) {
      MonthIndexOrder(cursor, end);
      if cursor.day <= 28 {
        StepMonthTotal(cursor);
      }
      if StepMonth(cursor).Some? {
        var next := StepMonth(cursor).value;
        MonthWalkShape(next, end);
        if MonthWalk(cursor, end).Some? {
          var rest := MonthWalk(next, end).value;
          var w := MonthWalk(cursor, end).value;
          assert w == [cursor] + rest;
          forall k | 0 <= k < |w|
            ensures w[k] == MonthsAfter(cursor, k) && Valid(w[k]) && LessEq(w[k], end)
          {
            if k > 0 {
              assert w[k] == rest[k - 1];
              MonthsAfterShift(cursor, k - 1);
            }
          }
        }
      }
    } else {
      MonthIndexOrder(end, cursor);
    }
  }

  /** The walk fails exactly when one of the month steps it takes raises: the step out of
      the k-th cursor, for some k below the number of months the walk would visit. */
  lemma {:induction false} MonthWalkFails(cursor: Date, end: Date)
    requires Valid(cursor) && Valid(end)
    ensures MonthWalk(cursor, end).None? <==> exists k :: 0 <= k < MonthsUntil(cursor, end) && StepFailsAt(cursor, k)
    decreases MonthIndex(end) - MonthIndex(cursor) + 1
  {
    if LessEq(cursor, end) {
      MonthIndexOrder(cursor, end);
      assert MonthsAfter(cursor, 1) == FollowingMonth(cursor);
      if StepMonth(cursor).None? {
        assert StepFailsAt(cursor, 0);
      } else {
        var next := StepMonth(cursor).value;
        MonthWalkFails(next, end);
        assert MonthsUntil(next, end) == MonthsUntil(cursor, end) - 1;
        if exists j :: 0 <= j < MonthsUntil(next, end) && StepFailsAt(next, j) {
          var j :| 0 <= j < MonthsUntil(next, end) && StepFailsAt(next, j);
          MonthsAfterShift(cursor, j + 1);
          assert StepFailsAt(cursor, j + 1);
        }
        if exists k :: 0 <= k < MonthsUntil(cursor, end) && StepFailsAt(cursor, k) {
          var k :| 0 <= k < MonthsUntil(cursor, end) && StepFailsAt(cursor, k);
          assert k != 0;
          MonthsAfterShift(cursor, k);
          assert StepFailsAt(next, k - 1);
        }
      }
    } else {
      MonthIndexOrder(end, cursor);
    }
  }

  /** Stepping first and then `k` months is stepping `k + 1` months. */
  lemma {:induction false} MonthsAfterShift(cursor: Date, k: nat)
    requires Valid(cursor) && StepMonth(cursor).Some?
    ensures MonthsAfter(StepMonth(cursor).value, k) == MonthsAfter(cursor, k + 1)
    decreases k
  {
    if k > 0 {
      MonthsAfterShift(cursor, k - 1);
    }
  }

  /** Every cursor the walk visits is valid, no earlier than its start and not after `end`. */
  lemma {:induction false} MonthWalkBounds(cursor: Date, end: Date)
    requires Valid(cursor) && Valid(end) && MonthWalk(cursor, end).Some?
    ensures forall k :: 0 <= k < |MonthWalk(cursor, end).value| ==>
              Valid(MonthWalk(cursor, end).value[k])
              && LessEq(cursor, MonthWalk(cursor, end).value[k])
              && LessEq(MonthWalk(cursor, end).value[k], end)
              && MonthWalk(cursor, end).value[k].day == cursor.day
              && MonthIndex(MonthWalk(cursor, end).value[k]) == MonthIndex(cursor) + k
    decreases MonthIndex(end) - MonthIndex(cursor) + 1
  {
    if LessEq(cursor, end) {
      MonthIndexOrder(cursor, end);
      var next := StepMonth(cursor).value;
      MonthWalkBounds(next, end);
      var rest := MonthWalk(next, end).value;
      var w := MonthWalk(cursor, end).value;
      assert w == [cursor] + rest;
      forall k | 0 <= k < |w|
        ensures Valid(w[k]) && LessEq(cursor, w[k]) && LessEq(w[k], end) && w[k].day == cursor.day
        ensures MonthIndex(w[k]) == MonthIndex(cursor) + k
      {
        if k > 0 {
          assert w[k] == rest[k - 1];
          LessEqTotalOrder(cursor, next, w[k]);
        }
      }
    }
  }
}
