/** The records the generator produces. */
module Ledger {
  import opened Calendar
  import opened Money

  datatype Kind = Credit | Debit

  /** One generated record without its identifier: `transaction_date`, `transaction_type`,
      `amount`, `category` and `sub_category`. */
  datatype Entry = Entry(date: Date, kind: Kind, amount: Cents, category: string, subCategory: string)

  /** A finished output row: the identifier and the record it numbers. */
  datatype Transaction = Transaction(id: int, entry: Entry)

  /** Number of entries satisfying `p`. */
  function CountWhere(s: seq<Entry>, p: Entry -> bool): (n: nat)
    ensures n <= |s|
    ensures n == 0 <==> forall i :: 0 <= i < |s| ==> !p(s[i])
  {
    if |s| == 0 then 0 else (if p(s[0]) then 1 else 0) + CountWhere(s[1..], p)
  }

  lemma {:induction false} CountWhereAppend(a: seq<Entry>, b: seq<Entry>, p: Entry -> bool)
    ensures CountWhere(a + b, p) == CountWhere(a, p) + CountWhere(b, p)
  {
    if |a| == 0 {
      assert a + b == b;
    } else {
      assert (a + b)[0] == a[0];
      assert (a + b)[1..] == a[1..] + b;
      CountWhereAppend(a[1..], b, p);
    }
  }
}
