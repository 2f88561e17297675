/** Calendar dates as `pd.to_datetime` produces them, their order, and the
    `strftime('%m/%d/%Y')` rendering of converter.py. */
module Dates {
  import opened Digits

  datatype Date = Date(year: int, month: int, day: int)

  predicate IsLeapYear(year: int) {
    year % 4 == 0 && (year % 100 != 0 || year % 400 == 0)
  }

  function DaysInMonth(year: int, month: int): (n: int)
    requires 1 <= month <= 12
    ensures 28 <= n <= 31
  {
    if month == 2 then (if IsLeapYear(year) then 29 else 28)
    else if month == 4 || month == 6 || month == 9 || month == 11 then 30
    else 31
  }

  /** The years a pandas Timestamp can hold, a real month, and a day that
      exists in that month. */
  predicate ValidDate(d: Date) {
    1677 <= d.year <= 2262 && 1 <= d.month <= 12 && 1 <= d.day <= DaysInMonth(d.year, d.month)
  }

  type CalendarDate = d: Date | ValidDate(d) witness Date(2000, 1, 1)

  /** Chronological order: by year, then month, then day. */
  predicate DateLe(a: Date, b: Date) {
    a.year < b.year
    || (a.year == b.year && (a.month < b.month || (a.month == b.month && a.day <= b.day)))
  }

  /** `strftime('%m/%d/%Y')`: two-digit month, two-digit day, four-digit year,
      slash separated. The three digit groups read back as the date's fields,
      so the rendering loses nothing. */
  function FormatDate(d: CalendarDate): (r: string)
    ensures |r| == 10 && r[2] == '/' && r[5] == '/'
    ensures AllDigits(r[..2]) && DigitsValue(r[..2]) == d.month
    ensures AllDigits(r[3..5]) && DigitsValue(r[3..5]) == d.day
    ensures AllDigits(r[6..]) && DigitsValue(r[6..]) == d.year
  {
    FieldWidths(d.month, d.day, d.year);
    SlashJoin(PadLeft(d.month, 2), PadLeft(d.day, 2), PadLeft(d.year, 4));
    PadLeft(d.month, 2) + "/" + PadLeft(d.day, 2) + "/" + PadLeft(d.year, 4)
  }

  /** Month and day fit in two digits, the year in four. */
  lemma FieldWidths(month: nat, day: nat, year: nat)
    requires month <= 12 && day <= 31 && year <= 9999
    ensures |PadLeft(month, 2)| == 2 && |PadLeft(day, 2)| == 2 && |PadLeft(year, 4)| == 4
  {
    assert Pow10(2) == 100;
    assert Pow10(4) == 10000;
    PadLeftExact(month, 2);
    PadLeftExact(day, 2);
    PadLeftExact(year, 4);
  }

  /** Where the three fields sit in "MM/DD/YYYY". */
  lemma SlashJoin(mm: string, dd: string, yyyy: string)
    requires |mm| == 2 && |dd| == 2 && |yyyy| == 4
    ensures var r := mm + "/" + dd + "/" + yyyy;
      |r| == 10 && r[2] == '/' && r[5] == '/' && r[..2] == mm && r[3..5] == dd && r[6..] == yyyy
  {
    var r := mm + "/" + dd + "/" + yyyy;
    assert r[..2] == mm;
    assert r[3..5] == dd;
    assert r[6..] == yyyy;
  }

  /** Two dates with the same rendering are the same date. */
  lemma {:induction false} FormatDateInjective(a: CalendarDate, b: CalendarDate)
    requires FormatDate(a) == FormatDate(b)
    ensures a == b
  {
    var r := FormatDate(a);
    assert DigitsValue(r[..2]) == a.month && DigitsValue(FormatDate(b)[..2]) == b.month;
    assert DigitsValue(r[3..5]) == a.day && DigitsValue(FormatDate(b)[3..5]) == b.day;
    assert DigitsValue(r[6..]) == a.year && DigitsValue(FormatDate(b)[6..]) == b.year;
  }

  /** DateLe is a total order on dates. */
  lemma DateLeTotalOrder(a: Date, b: Date, c: Date)
    ensures DateLe(a, a)
    ensures DateLe(a, b) || DateLe(b, a)
    ensures DateLe(a, b) && DateLe(b, a) ==> a == b
    ensures DateLe(a, b) && DateLe(b, c) ==> DateLe(a, c)
  {
  }
}
