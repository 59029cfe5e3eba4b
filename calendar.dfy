/**
 * Gregorian calendar dates without a time of day, as the `Date` column holds
 * them once it has been parsed, and the two pieces of pandas month arithmetic
 * the forecast dates are built from: `pd.DateOffset(months=1)` and the
 * month-end frequency `'M'` of `pd.date_range`.
 */
module Calendar {

  datatype Date = Date(year: int, month: int, day: int)

  /** Gregorian leap years: every fourth year, except centuries not divisible by 400. */
  predicate IsLeapYear(year: int) {
    year % 4 == 0 && (year % 100 != 0 || year % 400 == 0)
  }

  function DaysInMonth(year: int, month: int): (n: int)
    requires 1 <= month <= 12
    ensures 28 <= n <= 31
    ensures month == 2 ==> (n == 29 <==> IsLeapYear(year))
  {
    if month == 2 then (if IsLeapYear(year) then 29 else 28)
    else if month == 4 || month == 6 || month == 9 || month == 11 then 30
    else 31
  }

  predicate ValidDate(d: Date) {
    1 <= d.month <= 12 && 1 <= d.day <= DaysInMonth(d.year, d.month)
  }

  predicate IsMonthEnd(d: Date) {
    ValidDate(d) && d.day == DaysInMonth(d.year, d.month)
  }

  /** Chronological order: `a` is strictly earlier than `b`. */
  predicate Before(a: Date, b: Date) {
    a.year < b.year
    || (a.year == b.year && (a.month < b.month || (a.month == b.month && a.day < b.day)))
  }

  /** `a` is not later than `b` (the order `max` and `sort_values` use). */
  predicate NotAfter(a: Date, b: Date) {
    !Before(b, a)
  }

  /**
   * The first and last midnight a pandas `Timestamp` can hold at the
   * nanosecond resolution `pd.to_datetime` gives (1677-09-21 00:12:43 to
   * 2262-04-11 23:47:16); a date outside raises `OutOfBoundsDatetime`.
   */
  const FirstTimestampDate: Date := Date(1677, 9, 22)
  const LastTimestampDate: Date := Date(2262, 4, 11)

  /** A valid date that a `Timestamp` can hold. */
  predicate InTimestampRange(d: Date) {
    ValidDate(d) && NotAfter(FirstTimestampDate, d) && NotAfter(d, LastTimestampDate)
  }

  /** Months counted from January of year 0; consecutive months have consecutive indices. */
  function MonthIndex(d: Date): int {
    d.year * 12 + (d.month - 1)
  }

  /**
   * The last day of the month whose index is `k`: the reference definition
   * that the forecast dates are proved against.
   */
  function EndOfMonth(k: int): (d: Date)
    ensures IsMonthEnd(d) && MonthIndex(d) == k
  {
    var year, month := k / 12, k % 12 + 1;
    Date(year, month, DaysInMonth(year, month))
  }

  /** A month-end date is determined by its month. */
  lemma MonthEndIsEndOfMonth(d: Date)
    requires IsMonthEnd(d)
    ensures EndOfMonth(MonthIndex(d)) == d
  {
  }

  /**
   * `d + pd.DateOffset(months=1)`: the same day of the next month, or that
   * month's last day when the next month is too short (January 31 becomes
   * February 28 or 29); December rolls over to January of the next year.
   */
  function AddOneMonth(d: Date): (r: Date)
    requires ValidDate(d)
    ensures ValidDate(r)
    ensures MonthIndex(r) == MonthIndex(d) + 1
    ensures r.day == d.day || (r.day < d.day && IsMonthEnd(r))
  {
    var year := if d.month == 12 then d.year + 1 else d.year;
    var month := if d.month == 12 then 1 else d.month + 1;
    var last := DaysInMonth(year, month);
    Date(year, month, if d.day <= last then d.day else last)
  }

  /**
   * How `pd.date_range(start, ..., freq='M')` anchors its first element: the
   * earliest month end on or after `d`, which is the end of `d`'s own month.
   */
  function RollForwardToMonthEnd(d: Date): (r: Date)
    requires ValidDate(d)
    ensures IsMonthEnd(r) && MonthIndex(r) == MonthIndex(d)
    ensures NotAfter(d, r)
    ensures forall e :: IsMonthEnd(e) && NotAfter(d, e) ==> NotAfter(r, e)
  {
    Date(d.year, d.month, DaysInMonth(d.year, d.month))
  }

  /** One step of the month-end frequency from a month end: the end of the following month. */
  function NextMonthEnd(d: Date): (r: Date)
    requires IsMonthEnd(d)
    ensures IsMonthEnd(r) && MonthIndex(r) == MonthIndex(d) + 1
    ensures Before(d, r)
  {
    var year := if d.month == 12 then d.year + 1 else d.year;
    var month := if d.month == 12 then 1 else d.month + 1;
    Date(year, month, DaysInMonth(year, month))
  }
}
