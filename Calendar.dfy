/** Dates as the ledger stores and filters them: a Gregorian calendar date
    with a time of day, JavaScript's `new Date(year, monthIndex, day)`
    construction, the bounds of the monthly report's month filter, and the
    "YYYY-MM" month labels. Time zones are not modelled: every date is read
    in one zone. */
module Calendar {
  import opened Common

  const MsPerDay := 86_400_000

  predicate IsLeapYear(y: int)
  {
    y % 4 == 0 && (y % 100 != 0 || y % 400 == 0)
  }

  function DaysInMonth(y: int, m: int): (n: int)
    requires 1 <= m <= 12
    ensures 28 <= n <= 31
    ensures m == 2 ==> (n == 29 <==> IsLeapYear(y))
  {
    if m == 2 then (if IsLeapYear(y) then 29 else 28)
    else if m == 4 || m == 6 || m == 9 || m == 11 then 30
    else 31
  }

  /** A calendar date (month 1..12) and the time of day in milliseconds since
      midnight. */
  datatype DateTime = DateTime(year: int, month: int, day: int, ms: int)
  {
    predicate Valid()
    {
      1 <= month <= 12 && 1 <= day <= DaysInMonth(year, month) && 0 <= ms < MsPerDay
    }
  }

  /** A date the store holds: a real calendar date whose year the store's date
      operators (`$year`, `$dateFromParts`) accept. */
  type StoredDate = d: DateTime | d.Valid() && 1 <= d.year <= 9999
    witness DateTime(1970, 1, 1, 0)

  /** `a <= b` between dates: chronological order, which for valid dates is the
      lexicographic order of (year, month, day, time of day). */
  predicate NotAfter(a: DateTime, b: DateTime)
  {
    a.year < b.year ||
    (a.year == b.year && (a.month < b.month ||
    (a.month == b.month && (a.day < b.day ||
    (a.day == b.day && a.ms <= b.ms)))))
  }

  /** JavaScript maps a two-digit year argument of the Date constructor to the 1900s. */
  function JsYear(y: int): int
  {
    if 0 <= y <= 99 then 1900 + y else y
  }

  /** `new Date(year, monthIndex, day)` at midnight, for a day argument 0..28:
      the zero-based month index carries into the year, and day 0 is the last
      day of the month before. */
  function MakeDate(year: int, monthIndex: int, day: int): (d: DateTime)
    requires 0 <= day <= 28
    ensures d.Valid()
  {
    var y := JsYear(year) + monthIndex / 12;
    var m := monthIndex % 12 + 1;
    if day > 0 then DateTime(y, m, day, 0)
    else if m == 1 then DateTime(y - 1, 12, 31, 0)
    else DateTime(y, m - 1, DaysInMonth(y, m - 1), 0)
  }

  /** `new Date(year, monthNum - 1, 1)`: the filter's lower bound. */
  function MonthStart(year: int, month: int): DateTime
  {
    MakeDate(year, month - 1, 1)
  }

  /** `new Date(year, monthNum, 0)`: the filter's upper bound as the handler
      builds it, meant as "the last day of the month". */
  function MonthEndAsWritten(year: int, month: int): DateTime
  {
    MakeDate(year, month, 0)
  }

  /** Both bounds fall in the requested month (of the year JavaScript reads):
      the first at midnight of day 1, the second at midnight of the last day,
      which is the 29th for February of a leap year. */
  lemma MonthBounds(year: int, month: int)
    requires 1 <= month <= 12
    ensures MonthStart(year, month) == DateTime(JsYear(year), month, 1, 0)
    ensures MonthEndAsWritten(year, month) ==
            DateTime(JsYear(year), month, DaysInMonth(JsYear(year), month), 0)
  {
    if month == 12 {
      assert month / 12 == 1 && month % 12 == 0;
    } else {
      assert month / 12 == 0 && month % 12 == month;
    }
    assert (month - 1) / 12 == 0 && (month - 1) % 12 == month - 1;
  }

  /** The month filter as written: `startDate <= date <= endDate`. */
  predicate InMonthAsWritten(d: DateTime, year: int, month: int)
  {
    NotAfter(MonthStart(year, month), d) && NotAfter(d, MonthEndAsWritten(year, month))
  }

  /** What the filter as written keeps: a date of the requested month, except
      one on the month's last day that is later than midnight. */
  lemma InMonthAsWrittenIff(d: DateTime, year: int, month: int)
    requires d.Valid() && 1 <= month <= 12
    ensures InMonthAsWritten(d, year, month) <==>
            d.year == JsYear(year) && d.month == month &&
            (d.day < DaysInMonth(d.year, month) || d.ms == 0)
  {
    MonthBounds(year, month);
  }

  /** A payment at noon on 31 March 2024 is a March record that the filter
      for "2024-03" drops. */
  lemma LastDayAfterMidnightDropped()
    ensures var d := DateTime(2024, 3, 31, 12 * 3_600_000);
            d.Valid() && d.year == 2024 && d.month == 3 && !InMonthAsWritten(d, 2024, 3)
  {
    MonthBounds(2024, 3);
  }

  /** The intended filter: on or after the month's first midnight and before
      the next month's first midnight, `new Date(year, monthNum, 1)`. */
  predicate InMonth(d: DateTime, year: int, month: int)
  {
    NotAfter(MonthStart(year, month), d) && !NotAfter(MakeDate(year, month, 1), d)
  }

  /** The intended filter keeps exactly the dates of the requested month. */
  lemma InMonthIff(d: DateTime, year: int, month: int)
    requires d.Valid() && 1 <= month <= 12
    ensures InMonth(d, year, month) <==> d.year == JsYear(year) && d.month == month
  {
    MonthBounds(year, month);
    if month == 12 {
      assert month / 12 == 1 && month % 12 == 0;
      assert MakeDate(year, month, 1) == DateTime(JsYear(year) + 1, 1, 1, 0);
    } else {
      assert month / 12 == 0 && month % 12 == month;
      assert MakeDate(year, month, 1) == DateTime(JsYear(year), month + 1, 1, 0);
    }
  }

  /** A (year, month) pair as `$year` and `$month` extract it. */
  datatype YearMonth = YearMonth(year: int, month: int)

  /** The (year, month) of a stored date. */
  type StoredMonth = ym: YearMonth | 1 <= ym.year <= 9999 && 1 <= ym.month <= 12
    witness YearMonth(1970, 1)

  function MonthOfDate(d: StoredDate): StoredMonth
  {
    YearMonth(d.year, d.month)
  }

  /** Ascending order of (year, month). */
  predicate YearMonthLe(a: YearMonth, b: YearMonth)
  {
    a.year < b.year || (a.year == b.year && a.month <= b.month)
  }

  /** `$dateToString` with format "%Y-%m" of the first day of the month. */
  function FormatYearMonth(ym: StoredMonth): string
  {
    Digits(ym.year, 4) + "-" + Digits(ym.month, 2)
  }

  /** The month query `"Y-M"` as the handler reads it: `split("-")`, the first
      piece the year and the second the month number; `None` for a string that
      is not two numerals with a month 1..12, which the model does not cover. */
  function ParseMonthQuery(s: string): (r: Option<YearMonth>)
    ensures r.Some? ==> 1 <= r.value.month <= 12 && r.value.year >= 0
  {
    var parts := Split(s, '-');
    if |parts| >= 2 && IsNumeral(parts[0]) && IsNumeral(parts[1])
       && 1 <= DigitsValue(parts[1]) <= 12
    then Some(YearMonth(DigitsValue(parts[0]), DigitsValue(parts[1])))
    else None
  }

  /** A month label of the monthly report reads back, as a month query, as the
      month it names. */
  lemma ParseFormat(ym: StoredMonth)
    ensures ParseMonthQuery(FormatYearMonth(ym)) == Some(ym)
  {
    var y, m := Digits(ym.year, 4), Digits(ym.month, 2);
    assert Join([y, m], '-') == FormatYearMonth(ym);
    SplitJoin([y, m], '-');
    assert Pow10(4) == 10000 && Pow10(2) == 100;
    DigitsRoundTrip(ym.year, 4);
    DigitsRoundTrip(ym.month, 2);
  }

  /** Distinct months get distinct labels. */
  lemma FormatInjective(a: StoredMonth, b: StoredMonth)
    ensures FormatYearMonth(a) == FormatYearMonth(b) <==> a == b
  {
    ParseFormat(a);
    ParseFormat(b);
  }
}
