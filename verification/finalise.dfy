/** Finalisation: the generated records sorted by date and numbered from the starting
    identifier. */
module Finalisation {
  import opened Calendar
  import opened Ledger

  predicate SortedDates(ds: seq<Date>) {
    forall i, j :: 0 <= i < j < |ds| ==> LessEq(ds[i], ds[j])
  }

  /** The `transaction_date` column. */
  function DatesOf(s: seq<Entry>): (ds: seq<Date>)
    ensures |ds| == |s| && forall i :: 0 <= i < |s| ==> ds[i] == s[i].date
  {
    seq(|s|, i requires 0 <= i < |s| => s[i].date)
  }

  predicate SortedByDate(s: seq<Entry>) {
    forall i, j :: 0 <= i < j < |s| ==> LessEq(s[i].date, s[j].date)
  }

  /** Inserts `e` into a date-sorted sequence before the first record it does not follow. */
  function Insert(e: Entry, s: seq<Entry>): (r: seq<Entry>)
    requires SortedByDate(s)
    ensures SortedByDate(r)
    ensures multiset(r) == multiset(s) + multiset{e}
  {
    if |s| == 0 then [e]
    else if LessEq(e.date, s[0].date) then
      assert forall j :: 0 <= j < |s| ==> LessEq(e.date, s[j].date) by {
        forall j | 0 <= j < |s| { LessEqTotalOrder(e.date, s[0].date, s[j].date); }
      }
      [e] + s
    else
      var rest := Insert(e, s[1..]);
      InsertTailBound(e, s, rest);
      assert s == [s[0]] + s[1..];
      [s[0]] + rest
  }

  /** Every record of `rest` (the tail with `e` inserted) follows the head of `s`. */
  lemma InsertTailBound(e: Entry, s: seq<Entry>, rest: seq<Entry>)
    requires SortedByDate(s) && |s| > 0 && !LessEq(e.date, s[0].date)
    requires multiset(rest) == multiset(s[1..]) + multiset{e}
    ensures forall j :: 0 <= j < |rest| ==> LessEq(s[0].date, rest[j].date)
  {
    LessEqTotalOrder(e.date, s[0].date, e.date);
    forall j | 0 <= j < |rest|
      ensures LessEq(s[0].date, rest[j].date)
    {
      assert rest[j] in multiset(rest);
      if rest[j] != e {
        assert rest[j] in multiset(s[1..]);
        var m :| 0 <= m < |s[1..]| && s[1..][m] == rest[j];
        assert s[m + 1] == rest[j];
      }
    }
  }

  /** Insertion sort by date; one admissible order among records of equal dates. */
  function SortByDate(s: seq<Entry>): (r: seq<Entry>)
    ensures SortedByDate(r)
    ensures multiset(r) == multiset(s)
  {
    if |s| == 0 then []
    else
      assert s == [s[0]] + s[1..];
      Insert(s[0], SortByDate(s[1..]))
  }

  /** Identifiers assigned in row order from `startId`, replacing the ones handed out during
      generation. */
  function Renumber(s: seq<Entry>, startId: int): (r: seq<Transaction>)
    ensures |r| == |s|
    ensures forall i :: 0 <= i < |r| ==> r[i].id == startId + i && r[i].entry == s[i]
  {
    seq(|s|, i requires 0 <= i < |s| => Transaction(startId + i, s[i]))
  }

  /** The records of the output rows, in row order. */
  function EntriesOf(r: seq<Transaction>): (s: seq<Entry>)
    ensures |s| == |r| && forall i :: 0 <= i < |r| ==> s[i] == r[i].entry
  {
    seq(|r|, i requires 0 <= i < |r| => r[i].entry)
  }

  /** Sort by date, then renumber: the rows are the generated records rearranged (same
      multiset), in non-decreasing date order, with identifiers `startId`, `startId + 1`, …
      in row order, hence distinct. No order among equal dates is promised. */
  function Finalise(generated: seq<Entry>, startId: int): (r: seq<Transaction>)
    ensures |r| == |generated|
    ensures forall i :: 0 <= i < |r| ==> r[i].id == startId + i
    ensures forall i, j :: 0 <= i < j < |r| ==> r[i].id < r[j].id
    ensures SortedByDate(EntriesOf(r))
    ensures multiset(EntriesOf(r)) == multiset(generated)
  {
    var sorted := SortByDate(generated);
    var r := Renumber(sorted, startId);
    assert |sorted| == |multiset(sorted)| == |multiset(generated)| == |generated|;
    assert EntriesOf(r) == sorted;
    r
  }

  lemma DatesOfAppend(a: seq<Entry>, b: seq<Entry>)
    ensures DatesOf(a + b) == DatesOf(a) + DatesOf(b)
  {
  }

  /** Rearranging records rearranges their dates alike. */
  lemma {:induction false} DatesOfPermutation(a: seq<Entry>, b: seq<Entry>)
    requires multiset(a) == multiset(b)
    ensures multiset(DatesOf(a)) == multiset(DatesOf(b))
    decreases |a|
  {
    if |a| == 0 {
      assert |b| == |multiset(b)| == 0;
    } else {
      var x := a[0];
      assert x in multiset(b);
      var i :| 0 <= i < |b| && b[i] == x;
      var b' := b[..i] + b[i + 1..];
      assert b == b[..i] + [x] + b[i + 1..];
      assert a == [x] + a[1..];
      assert multiset(b) == multiset(b[..i]) + multiset{x} + multiset(b[i + 1..]);
      assert multiset(a) == multiset{x} + multiset(a[1..]);
      assert multiset(b') == multiset(b[..i]) + multiset(b[i + 1..]);
      assert multiset(a[1..]) == multiset(a) - multiset{x};
      assert multiset(b') == multiset(b) - multiset{x};
      DatesOfPermutation(a[1..], b');
      DatesOfAppend([x], a[1..]);
      DatesOfAppend(b[..i] + [x], b[i + 1..]);
      DatesOfAppend(b[..i], [x]);
      DatesOfAppend(b[..i], b[i + 1..]);
    }
  }

  lemma SortedHead(a: seq<Date>, i: nat)
    requires SortedDates(a) && i < |a|
    ensures LessEq(a[0], a[i])
    ensures SortedDates(a[1..])
  {
    if i == 0 {
      LessEqTotalOrder(a[0], a[0], a[0]);
    }
  }

  /** Two date-sorted sequences with the same multiset of dates are equal. */
  lemma {:induction false} SortedDatesUnique(a: seq<Date>, b: seq<Date>)
    requires SortedDates(a) && SortedDates(b) && multiset(a) == multiset(b)
    ensures a == b
    decreases |a|
  {
    if |a| == 0 {
      assert |b| == |multiset(b)| == 0;
    } else {
      assert |b| == |multiset(b)| == |a|;
      assert a[0] in multiset(b) && b[0] in multiset(a);
      var i :| 0 <= i < |b| && b[i] == a[0];
      var j :| 0 <= j < |a| && a[j] == b[0];
      SortedHead(b, i);
      SortedHead(a, j);
      LessEqTotalOrder(a[0], b[0], a[0]);
      assert a[0] == b[0];
      MultisetTail(a);
      MultisetTail(b);
      SortedDatesUnique(a[1..], b[1..]);
      assert a == [a[0]] + a[1..] && b == [b[0]] + b[1..];
    }
  }

  lemma MultisetTail(a: seq<Date>)
    requires |a| > 0
    ensures multiset(a[1..]) == multiset(a) - multiset{a[0]}
  {
    assert a == [a[0]] + a[1..];
  }

  /** Whatever order a sort leaves records of equal dates in, the date column of the output
      is the same: every date-sorted rearrangement of the generated records has the dates of
      `Finalise`'s rows, row by row. */
  lemma DateColumnDetermined(generated: seq<Entry>, startId: int, other: seq<Entry>)
    requires SortedByDate(other) && multiset(other) == multiset(generated)
    ensures DatesOf(other) == DatesOf(EntriesOf(Finalise(generated, startId)))
  {
    var rows := EntriesOf(Finalise(generated, startId));
    DatesOfPermutation(other, rows);
    SortedDatesUnique(DatesOf(other), DatesOf(rows));
  }

  /** Rearranging records does not change how many satisfy a predicate. */
  lemma {:induction false} CountWherePermutation(a: seq<Entry>, b: seq<Entry>, p: Entry -> bool)
    requires multiset(a) == multiset(b)
    ensures CountWhere(a, p) == CountWhere(b, p)
    decreases |a|
  {
    if |a| == 0 {
      assert |b| == |multiset(b)| == 0;
    } else {
      var x := a[0];
      assert x in multiset(b);
      var i :| 0 <= i < |b| && b[i] == x;
      var b' := b[..i] + b[i + 1..];
      assert b == b[..i] + [x] + b[i + 1..];
      assert a == [x] + a[1..];
      assert multiset(b) == multiset(b[..i]) + multiset{x} + multiset(b[i + 1..]);
      assert multiset(a) == multiset{x} + multiset(a[1..]);
      assert multiset(b') == multiset(b[..i]) + multiset(b[i + 1..]);
      assert multiset(a[1..]) == multiset(a) - multiset{x};
      assert multiset(b') == multiset(b) - multiset{x};
      CountWherePermutation(a[1..], b', p);
      CountWhereAppend(b[..i] + [x], b[i + 1..], p);
      CountWhereAppend(b[..i], [x], p);
      CountWhereAppend(b[..i], b[i + 1..], p);
    }
  }
}
