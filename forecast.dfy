/**
 * What the app builds around the Holt-Winters forecast of one product: the
 * calendar dates of the forecast steps (`create_forecast_dates`), the
 * exported forecast table and the download file name
 * (`display_forecast_results`). The forecast values themselves are opaque.
 */
module Forecast {
  import opened Calendar
  import opened Sales

  datatype Option<T> = None | Some(value: T)

  /** Every row carries a date that `pd.to_datetime` could parse into a `Timestamp`. */
  predicate AllDatesValid(rows: seq<Record>) {
    forall i :: 0 <= i < |rows| ==> InTimestampRange(rows[i].date)
  }

  /** `current_product_data['Date'].max()`: the latest observation date. */
  function LastDate(rows: seq<Record>): (d: Date)
    requires |rows| > 0
    ensures exists i :: 0 <= i < |rows| && rows[i].date == d
    ensures forall i :: 0 <= i < |rows| ==> NotAfter(rows[i].date, d)
    ensures AllDatesValid(rows) ==> InTimestampRange(d)
  {
    if |rows| == 1 then rows[0].date
    else
      var later := LastDate(rows[1..]);
      if Before(later, rows[0].date) then rows[0].date else later
  }

  /**
   * `pd.date_range(start=first, periods=periods, freq='M')` for a `first`
   * that is already a month end: `periods` consecutive month ends.
   */
  function MonthEndRange(first: Date, periods: nat): (r: seq<Date>)
    requires IsMonthEnd(first)
    ensures |r| == periods
    ensures forall i :: 0 <= i < periods ==> r[i] == EndOfMonth(MonthIndex(first) + i)
    decreases periods
  {
    if periods == 0 then []
    else
      MonthEndIsEndOfMonth(first);
      [first] + MonthEndRange(NextMonthEnd(first), periods - 1)
  }

  /**
   * `create_forecast_dates`: one month after the last observation
   * (`pd.DateOffset(months=1)`), then `periods` month ends from there on.
   * `None` stands for the `OutOfBoundsDatetime` pandas raises when the
   * shifted start, the month end it is rolled forward to (even for a horizon
   * of 0) or the last month end lies past the last `Timestamp`; nothing
   * catches it, so it ends the page run.
   */
  function CreateForecastDates(series: seq<Record>, periods: nat): (r: Option<seq<Date>>)
    requires |series| > 0 && AllDatesValid(series)
    ensures r.Some? ==> |r.value| == periods
  {
    var first := RollForwardToMonthEnd(AddOneMonth(LastDate(series)));
    var dates := MonthEndRange(first, periods);
    if Before(LastTimestampDate, first) || (periods > 0 && Before(LastTimestampDate, dates[periods - 1])) then None
    else Some(dates)
  }

  /**
   * The `i`-th forecast date is the last day of the `(i + 1)`-th month after
   * the month of the last observation, whatever the day of that observation.
   */
  lemma ForecastDatesAreMonthEnds(series: seq<Record>, periods: nat)
    requires |series| > 0 && AllDatesValid(series)
    requires CreateForecastDates(series, periods).Some?
    ensures var dates := CreateForecastDates(series, periods).value;
      forall i :: 0 <= i < periods ==> dates[i] == EndOfMonth(MonthIndex(LastDate(series)) + 1 + i)
  {
  }

  /**
   * `create_forecast_dates` raises `OutOfBoundsDatetime` exactly when the end
   * of the month after the last observation, or the end of the `periods`-th
   * month after it, lies past the last `Timestamp`.
   */
  lemma ForecastDatesOutOfBounds(series: seq<Record>, periods: nat)
    requires |series| > 0 && AllDatesValid(series)
    ensures var last := LastDate(series);
      CreateForecastDates(series, periods).None? <==>
        || Before(LastTimestampDate, EndOfMonth(MonthIndex(last) + 1))
        || Before(LastTimestampDate, EndOfMonth(MonthIndex(last) + periods))
  {
    var last := LastDate(series);
    var first := RollForwardToMonthEnd(AddOneMonth(last));
    MonthEndIsEndOfMonth(first);
  }

  /**
   * When no `OutOfBoundsDatetime` is raised, every forecast date is a
   * `Timestamp`: the dates lie between the last observation and the last
   * forecast date, which is not past the last `Timestamp`.
   */
  lemma ForecastDatesInTimestampRange(series: seq<Record>, periods: nat)
    requires |series| > 0 && AllDatesValid(series)
    requires CreateForecastDates(series, periods).Some?
    ensures var dates := CreateForecastDates(series, periods).value;
      forall i :: 0 <= i < periods ==> InTimestampRange(dates[i])
  {
  }

  /**
   * The forecast dates are month ends in consecutive months, hence strictly
   * increasing; the first falls in the month after the last observation
   * (January of the next year after a December) and after every observation.
   */
  lemma ForecastDatesFollowHistory(series: seq<Record>, periods: nat)
    requires |series| > 0 && AllDatesValid(series)
    requires CreateForecastDates(series, periods).Some?
    ensures var dates := CreateForecastDates(series, periods).value;
      && (forall i :: 0 <= i < periods ==> IsMonthEnd(dates[i]))
      && (forall i :: 0 < i < periods ==> MonthIndex(dates[i]) == MonthIndex(dates[i - 1]) + 1)
      && (forall i, j :: 0 <= i < j < periods ==> Before(dates[i], dates[j]))
      && (periods > 0 ==>
            var last := LastDate(series);
            && dates[0].year == (if last.month == 12 then last.year + 1 else last.year)
            && dates[0].month == (if last.month == 12 then 1 else last.month + 1)
            && forall k :: 0 <= k < |series| ==> Before(series[k].date, dates[0]))
  {
  }

  /** Worked example: mid-December moves on to the next year and meets a leap February. */
  lemma ForecastDatesAcrossNewYear()
    ensures var december := Record(Date(2023, 12, 15), 100.0, "P1", "Blue Widget", "Widgets", "Acme", "Gold");
      CreateForecastDates([december], 3) == Some([Date(2024, 1, 31), Date(2024, 2, 29), Date(2024, 3, 31)])
  {
    var december := Record(Date(2023, 12, 15), 100.0, "P1", "Blue Widget", "Widgets", "Acme", "Gold");
    assert EndOfMonth(24290) == Date(2024, 3, 31);
    assert CreateForecastDates([december], 3).value == [EndOfMonth(24288), EndOfMonth(24289), EndOfMonth(24290)];
    assert EndOfMonth(24288) == Date(2024, 1, 31) && EndOfMonth(24289) == Date(2024, 2, 29);
  }

  /** Worked example: January 31 of a common year is followed by February 28. */
  lemma ForecastDatesClampToShortMonth()
    ensures var january := Record(Date(2023, 1, 31), 100.0, "P1", "Blue Widget", "Widgets", "Acme", "Gold");
      CreateForecastDates([january], 1) == Some([Date(2023, 2, 28)])
  {
    var january := Record(Date(2023, 1, 31), 100.0, "P1", "Blue Widget", "Widgets", "Acme", "Gold");
    assert EndOfMonth(24277) == Date(2023, 2, 28);
    assert CreateForecastDates([january], 1).value == [EndOfMonth(24277)];
  }

  /**
   * Worked example: six months after mid-February 2262 run past the last
   * `Timestamp` and raise, while one month does not; from early March 2262
   * even a horizon of 0 raises, since the start rolls forward to April 30.
   */
  lemma ForecastDatesNearLastTimestamp()
    ensures var late := Record(Date(2262, 2, 15), 100.0, "P1", "Blue Widget", "Widgets", "Acme", "Gold");
      CreateForecastDates([late], 6) == None && CreateForecastDates([late], 1) == Some([Date(2262, 3, 31)])
    ensures var march := Record(Date(2262, 3, 5), 100.0, "P1", "Blue Widget", "Widgets", "Acme", "Gold");
      CreateForecastDates([march], 0) == None
  {
    var late := Record(Date(2262, 2, 15), 100.0, "P1", "Blue Widget", "Widgets", "Acme", "Gold");
    assert EndOfMonth(27151) == Date(2262, 8, 31);
    assert EndOfMonth(27146) == Date(2262, 3, 31);
    assert CreateForecastDates([late], 1).value == [EndOfMonth(27146)];
    assert EndOfMonth(27147) == Date(2262, 4, 30);
  }

  /** One row of the exported forecast table. */
  datatype ForecastRow = ForecastRow(date: Date, forecast: real, productId: string, description: string)

  function DateColumn(table: seq<ForecastRow>): seq<Date> {
    seq(|table|, i requires 0 <= i < |table| => table[i].date)
  }

  function ForecastColumn(table: seq<ForecastRow>): seq<real> {
    seq(|table|, i requires 0 <= i < |table| => table[i].forecast)
  }

  /**
   * `forecast_df`: one row per forecast date with the forecast at the same
   * position; the product ID and the description of the series' first row
   * are broadcast to every row.
   */
  function ForecastTable(dates: seq<Date>, values: seq<real>, productId: string, series: seq<Record>): (table: seq<ForecastRow>)
    requires |dates| == |values| && |series| > 0
    ensures DateColumn(table) == dates && ForecastColumn(table) == values
    ensures forall i :: 0 <= i < |table| ==>
      table[i].productId == productId && table[i].description == series[0].description
  {
    seq(|dates|, i requires 0 <= i < |dates| => ForecastRow(dates[i], values[i], productId, series[0].description))
  }

  /** `str.replace(" ", "_")`: every space becomes an underscore, every other character stays. */
  function SpacesToUnderscores(s: string): (r: string)
    ensures |r| == |s|
    ensures forall i :: 0 <= i < |s| ==> (s[i] == ' ' ==> r[i] == '_') && (s[i] != ' ' ==> r[i] == s[i])
    ensures ' ' !in r
  {
    if s == [] then []
    else [if s[0] == ' ' then '_' else s[0]] + SpacesToUnderscores(s[1..])
  }

  /**
   * The download name `forecast_<id>_<description>.csv`: the product ID as
   * it is, then the description of the series' first row with its spaces
   * turned into underscores.
   */
  function DownloadFileName(productId: string, series: seq<Record>): (name: string)
    requires |series| > 0
    ensures var n, d := |productId|, |series[0].description|;
      && |name| == n + d + 14
      && name[..9] == "forecast_"
      && name[9..9 + n] == productId
      && name[9 + n] == '_'
      && name[10 + n..10 + n + d] == SpacesToUnderscores(series[0].description)
      && name[10 + n + d..] == ".csv"
  {
    "forecast_" + productId + "_" + SpacesToUnderscores(series[0].description) + ".csv"
  }
}
