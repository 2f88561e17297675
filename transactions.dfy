/** The retained transactions of converter.py after date parsing: ordering by
    date (`sort_values('Date')`) and the credit/debit/net summary. */
module Transactions {
  import opened Wrappers
  import opened Dates

  /** One output record: its parsed date, its stripped description (absent
      when the cell was NaN) and its cleaned amount. */
  datatype Transaction = Transaction(date: CalendarDate, description: Option<string>, amount: real)

  /** Non-decreasing by date. */
  predicate SortedByDate(ts: seq<Transaction>) {
    forall i, j :: 0 <= i < j < |ts| ==> DateLe(ts[i].date, ts[j].date)
  }

  /** `t` placed into a date-sorted sequence before the first later-or-equal
      date. */
  function InsertByDate(t: Transaction, ts: seq<Transaction>): (r: seq<Transaction>)
    requires SortedByDate(ts)
    ensures SortedByDate(r)
    ensures multiset(r) == multiset(ts) + multiset{t}
  {
    if ts == [] then [t]
    else if DateLe(t.date, ts[0].date) then [t] + ts
    else
      var rest := InsertByDate(t, ts[1..]);
      assert ts == [ts[0]] + ts[1..];
      LowerBound(ts[0].date, t, ts[1..], rest);
      [ts[0]] + rest
  }

  /** A date no later than `t` and than every row of `ts` is no later than any
      row of a rearrangement of `ts` with `t` added. */
  lemma LowerBound(d: Date, t: Transaction, ts: seq<Transaction>, rest: seq<Transaction>)
    requires DateLe(d, t.date)
    requires forall k :: 0 <= k < |ts| ==> DateLe(d, ts[k].date)
    requires multiset(rest) == multiset(ts) + multiset{t}
    ensures forall k :: 0 <= k < |rest| ==> DateLe(d, rest[k].date)
  {
    forall k | 0 <= k < |rest| ensures DateLe(d, rest[k].date) {
      assert rest[k] in multiset(ts) + multiset{t};
      if rest[k] != t {
        assert rest[k] in ts;
      }
    }
  }

  /** `sort_values('Date')`: a date-sorted rearrangement of the rows. The sort
      pandas uses by default is not stable, so nothing is promised about the
      relative order of rows with equal dates. */
  function SortByDate(ts: seq<Transaction>): (r: seq<Transaction>)
    ensures SortedByDate(r)
    ensures multiset(r) == multiset(ts)
  {
    if ts == [] then []
    else
      assert ts == [ts[0]] + ts[1..];
      InsertByDate(ts[0], SortByDate(ts[1..]))
  }

  /** Which amounts a sum takes in: the positive ones (credits), the
      negative ones (debits) or all of them. */
  datatype Selection = Credits | Debits | All

  function Part(x: real, sel: Selection): real {
    match sel
    case Credits => if x > 0.0 then x else 0.0
    case Debits => if x < 0.0 then x else 0.0
    case All => x
  }

  /** The pandas `.sum()` of the selected amounts; an empty selection sums to 0. */
  function SumOf(ts: seq<Transaction>, sel: Selection): (r: real)
    ensures sel == Credits ==> r >= 0.0
    ensures sel == Debits ==> r <= 0.0
  {
    if ts == [] then 0.0 else Part(ts[0].amount, sel) + SumOf(ts[1..], sel)
  }

  lemma {:induction false} SumOfConcat(a: seq<Transaction>, b: seq<Transaction>, sel: Selection)
    ensures SumOf(a + b, sel) == SumOf(a, sel) + SumOf(b, sel)
  {
    if a == [] {
      assert a + b == b;
    } else {
      assert (a + b)[1..] == a[1..] + b;
      SumOfConcat(a[1..], b, sel);
    }
  }

  /** Taking one row out of a sum. */
  lemma SumOfRemove(b: seq<Transaction>, i: nat, sel: Selection)
    requires i < |b|
    ensures SumOf(b, sel) == Part(b[i].amount, sel) + SumOf(b[..i] + b[i + 1..], sel)
  {
    assert b == b[..i] + [b[i]] + b[i + 1..];
    SumOfConcat(b[..i] + [b[i]], b[i + 1..], sel);
    SumOfConcat(b[..i], [b[i]], sel);
    SumOfConcat(b[..i], b[i + 1..], sel);
  }

  /** Taking the same row out of two rearrangements of each other leaves two
      rearrangements of each other. */
  lemma MultisetRemove(a: seq<Transaction>, b: seq<Transaction>, i: nat)
    requires a != [] && i < |b| && b[i] == a[0]
    requires multiset(a) == multiset(b)
    ensures multiset(a[1..]) == multiset(b[..i] + b[i + 1..])
  {
    assert a == [a[0]] + a[1..];
    assert b == b[..i] + [b[i]] + b[i + 1..];
    assert multiset(a[1..]) == multiset(a) - multiset{a[0]};
    assert multiset(b[..i] + b[i + 1..]) == multiset(b) - multiset{b[i]};
  }

  /** Each sum depends only on which rows there are, not on their order. */
  lemma {:induction false} SumOfPermutation(a: seq<Transaction>, b: seq<Transaction>, sel: Selection)
    requires multiset(a) == multiset(b)
    ensures SumOf(a, sel) == SumOf(b, sel)
  {
    if a == [] {
      assert |b| == |multiset(b)| == 0;
    } else {
      assert a[0] in multiset(b);
      var i :| 0 <= i < |b| && b[i] == a[0];
      MultisetRemove(a, b, i);
      SumOfPermutation(a[1..], b[..i] + b[i + 1..], sel);
      SumOfRemove(b, i, sel);
    }
  }

  /** Every amount is a credit, a debit or zero, so credits and debits
      together make up the total. */
  lemma {:induction false} CreditsPlusDebits(ts: seq<Transaction>)
    ensures SumOf(ts, Credits) + SumOf(ts, Debits) == SumOf(ts, All)
  {
    if ts != [] {
      CreditsPlusDebits(ts[1..]);
    }
  }

  /** Three rows with distinct dates come out in date order whatever order
      they came in. */
  lemma SortThree(s: seq<Transaction>, first: Transaction, middle: Transaction, last: Transaction)
    requires DateLe(first.date, middle.date) && !DateLe(middle.date, first.date)
    requires DateLe(middle.date, last.date) && !DateLe(last.date, middle.date)
    requires multiset(s) == multiset{first, middle, last}
    ensures SortByDate(s) == [first, middle, last]
  {
    SortedThree(SortByDate(s), first, middle, last);
  }

  /** The only date-sorted arrangement of three rows with distinct dates. */
  lemma SortedThree(r: seq<Transaction>, first: Transaction, middle: Transaction, last: Transaction)
    requires DateLe(first.date, middle.date) && !DateLe(middle.date, first.date)
    requires DateLe(middle.date, last.date) && !DateLe(last.date, middle.date)
    requires SortedByDate(r) && multiset(r) == multiset{first, middle, last}
    ensures r == [first, middle, last]
  {
    assert |r| == |multiset(r)| == 3;
    assert first in multiset(r) && middle in multiset(r) && last in multiset(r);
    var i :| 0 <= i < 3 && r[i] == first;
    var j :| 0 <= j < 3 && r[j] == middle;
    var k :| 0 <= k < 3 && r[k] == last;
    DateLeTotalOrder(last.date, first.date, middle.date);
    assert DateLe(r[0].date, r[1].date) && DateLe(r[1].date, r[2].date) && DateLe(r[0].date, r[2].date);
    assert i == 0 && j == 1 && k == 2;
    assert r == [r[0], r[1], r[2]];
  }

  /** The example of three statement dates: March 1, January 15 and
      February 10 of 2024 come out as January 15, February 10, March 1. */
  lemma SortExample(mar: Transaction, jan: Transaction, feb: Transaction)
    requires mar.date == Date(2024, 3, 1) && jan.date == Date(2024, 1, 15) && feb.date == Date(2024, 2, 10)
    ensures SortByDate([mar, jan, feb]) == [jan, feb, mar]
  {
    SortThree([mar, jan, feb], jan, feb, mar);
  }

  datatype Summary = Summary(count: nat, credits: real, debits: real, net: real)

  /** The closing summary: the number of transactions, credits, debits and
      their sum. Credits are never negative, debits never positive, the net is
      the sum of all amounts, and no transactions give an all-zero summary. */
  function Summarize(ts: seq<Transaction>): (s: Summary)
    ensures s.count == |ts|
    ensures s.credits >= 0.0 && s.debits <= 0.0
    ensures s.net == s.credits + s.debits == SumOf(ts, All)
    ensures ts == [] ==> s == Summary(0, 0.0, 0.0, 0.0)
  {
    CreditsPlusDebits(ts);
    var credits := SumOf(ts, Credits);
    var debits := SumOf(ts, Debits);
    Summary(|ts|, credits, debits, credits + debits)
  }

  /** Sorting does not change the summary. */
  lemma SummaryIgnoresOrder(ts: seq<Transaction>)
    ensures Summarize(SortByDate(ts)) == Summarize(ts)
  {
    var r := SortByDate(ts);
    assert |r| == |multiset(r)| == |multiset(ts)| == |ts|;
    SumOfPermutation(r, ts, Credits);
    SumOfPermutation(r, ts, Debits);
  }

  /** A paycheck of 1,200.00 and a purchase of 4.50, in either order. */
  lemma SummaryExample(paycheck: Transaction, coffee: Transaction)
    requires paycheck.amount == 1200.0 && coffee.amount == -4.5
    ensures Summarize([coffee, paycheck]) == Summary(2, 1200.0, -4.5, 1195.5)
    ensures Summarize([paycheck, coffee]) == Summary(2, 1200.0, -4.5, 1195.5)
  {
    assert [paycheck, coffee][1..] == [coffee] && [coffee][1..] == [];
    assert SumOf([coffee], Credits) == 0.0 && SumOf([coffee], Debits) == -4.5;
    assert SumOf([paycheck, coffee], Credits) == 1200.0;
    assert SumOf([paycheck, coffee], Debits) == -4.5;
    var ts := [coffee, paycheck];
    assert ts[1..] == [paycheck] && [paycheck][1..] == [];
    assert SumOf([paycheck], Credits) == 1200.0 && SumOf([paycheck], Debits) == 0.0;
    assert SumOf(ts, Credits) == 1200.0;
    assert SumOf(ts, Debits) == -4.5;
  }
}
