/**
 * The view model of the heat-map calendar (`src/composables/useHeatCalendar.js`):
 * from the selected date range it derives the calendar configuration, whether
 * navigation buttons are shown, and the `{date, value}` items to paint.
 */
module HeatCalendar {
  import opened Wrappers
  import opened Dates
  import opened PollutionApi
  import PollutionLevels

  /** The store's `dateRange`; a missing end (or a missing array) is None. */
  datatype DateRange = DateRange(start: Option<Date>, end: Option<Date>)

  datatype DomainType = Month | Year

  /** What `getCalendarViewConfig` returns. */
  datatype ViewConfig = ViewConfig(domainType: DomainType, subDomainType: string, range: int)

  /** The `calendarConfig` object: the two dates, their distance in months, and the view. */
  datatype CalendarConfig = CalendarConfig(
    startDate: Date,
    endDate: Date,
    monthsDiff: int,
    domainType: DomainType,
    subDomainType: string,
    range: int)

  /** Months since year 0, the reference scale for month distances. */
  function MonthIndex(d: Date): int
  {
    d.year * 12 + d.month0
  }

  predicate SameMonth(a: Date, b: Date) {
    a.month0 == b.month0 && a.year == b.year
  }

  /** `calculateMonthsDiff`: whole calendar months from the start's month to the end's. */
  function CalculateMonthsDiff(startDate: Date, endDate: Date): (n: int)
    ensures n == MonthIndex(endDate) - MonthIndex(startDate)
  {
    (endDate.year - startDate.year) * 12 + (endDate.month0 - startDate.month0)
  }

  /** The distance is zero exactly when both dates lie in the same month of the same year. */
  lemma MonthsDiffZeroIffSameMonth(startDate: Date, endDate: Date)
    requires startDate.Valid() && endDate.Valid()
    ensures CalculateMonthsDiff(startDate, endDate) == 0 <==> SameMonth(startDate, endDate)
  {
    if CalculateMonthsDiff(startDate, endDate) == 0 {
      var dy := endDate.year - startDate.year;
      assert dy * 12 == startDate.month0 - endDate.month0;
      assert -12 < dy * 12 < 12;
      assert dy == 0;
    }
  }

  /** `getCalendarViewConfig`: one month, up to five months, or a year view. */
  function GetCalendarViewConfig(startDate: Date, endDate: Date, monthsDiff: int): (v: ViewConfig)
    ensures v.subDomainType == "day"
    ensures v.domainType == Year <==> !SameMonth(startDate, endDate) && monthsDiff > 4
    ensures v.domainType == Year || SameMonth(startDate, endDate) ==> v.range == 1
    ensures v.domainType == Month && !SameMonth(startDate, endDate) ==> v.range == monthsDiff + 1
  {
    if startDate.month0 == endDate.month0 && startDate.year == endDate.year then
      ViewConfig(Month, "day", 1)
    else if monthsDiff <= 4 then
      ViewConfig(Month, "day", monthsDiff + 1)
    else
      ViewConfig(Year, "day", 1)
  }

  /**
   * For a range that does not run backwards, a month view spans exactly the
   * months from the start's to the end's (one to five of them), and anything
   * longer is shown as one year.
   */
  lemma ViewConfigCoversRange(startDate: Date, endDate: Date)
    requires startDate.Valid() && endDate.Valid()
    requires MonthIndex(startDate) <= MonthIndex(endDate)
    ensures var n := CalculateMonthsDiff(startDate, endDate);
      var v := GetCalendarViewConfig(startDate, endDate, n);
      && 1 <= v.range <= 5
      && (v.domainType == Month <==> n <= 4)
      && (v.domainType == Month ==> MonthIndex(startDate) + v.range - 1 == MonthIndex(endDate))
      && (v.domainType == Year ==> v.range == 1)
  {
    MonthsDiffZeroIffSameMonth(startDate, endDate);
  }

  /** For a start before the end in a later month, at most four months on, the range is 2..5. */
  lemma ViewRangeForDistinctMonths(startDate: Date, endDate: Date)
    requires startDate.Valid() && endDate.Valid()
    requires Before(startDate, endDate) && !SameMonth(startDate, endDate)
    requires CalculateMonthsDiff(startDate, endDate) <= 4
    ensures var v := GetCalendarViewConfig(startDate, endDate, CalculateMonthsDiff(startDate, endDate));
      v.domainType == Month && 2 <= v.range <= 5
  {
    MonthsDiffZeroIffSameMonth(startDate, endDate);
  }

  /** A range whose end lies in an earlier month than its start gets a month view of no months. */
  lemma ViewConfigBackwardsRange(startDate: Date, endDate: Date)
    requires MonthIndex(endDate) < MonthIndex(startDate)
    ensures var n := CalculateMonthsDiff(startDate, endDate);
      var v := GetCalendarViewConfig(startDate, endDate, n);
      v.domainType == Month && v.range == n + 1 && v.range <= 0
  {
  }

  /** `calendarConfig`: null until both ends of the range are set. */
  function CalendarConfigOf(dateRange: DateRange): (c: Option<CalendarConfig>)
    ensures c.None? <==> dateRange.start.None? || dateRange.end.None?
    ensures c.Some? ==>
      var v := GetCalendarViewConfig(c.value.startDate, c.value.endDate, c.value.monthsDiff);
      && c.value.startDate == dateRange.start.value
      && c.value.endDate == dateRange.end.value
      && c.value.monthsDiff == MonthIndex(dateRange.end.value) - MonthIndex(dateRange.start.value)
      && (c.value.domainType, c.value.subDomainType, c.value.range) == (v.domainType, v.subDomainType, v.range)
  {
    match (dateRange.start, dateRange.end)
    case (Some(startDate), Some(endDate)) =>
      var monthsDiff := CalculateMonthsDiff(startDate, endDate);
      var view := GetCalendarViewConfig(startDate, endDate, monthsDiff);
      Some(CalendarConfig(startDate, endDate, monthsDiff, view.domainType, view.subDomainType, view.range))
    case _ => None
  }

  /** `showNavigation`. */
  function ShowNavigation(config: Option<CalendarConfig>): (show: bool)
    ensures show ==> config.Some?
  {
    match config
    case None => false
    case Some(c) => c.range > 1 || c.monthsDiff > 2
  }

  /** Navigation is shown exactly when both ends are set and the end lies in a later month than the start. */
  lemma ShowNavigationIffLaterMonth(dateRange: DateRange)
    requires dateRange.start.Some? ==> dateRange.start.value.Valid()
    requires dateRange.end.Some? ==> dateRange.end.value.Valid()
    ensures ShowNavigation(CalendarConfigOf(dateRange)) <==>
      dateRange.start.Some? && dateRange.end.Some? &&
      MonthIndex(dateRange.start.value) < MonthIndex(dateRange.end.value)
  {
    if dateRange.start.Some? && dateRange.end.Some? {
      MonthsDiffZeroIffSameMonth(dateRange.start.value, dateRange.end.value);
    }
  }

  /** The fixed values of the sample data, one per day. */
  const SampleValues: seq<int> := [1, 1, 2, 3, 4, 5]

  /** `generateSampleData`: six entries on consecutive days from `startDate`. */
  function GenerateSampleData(startDate: Date): (r: seq<CalendarEntry>)
    requires startDate.Valid()
    ensures |r| == |SampleValues| == 6
    ensures r[0].date == startDate
    ensures forall i :: 0 <= i < |r| ==> r[i].date.Valid()
    ensures forall i :: 0 <= i < |r| - 1 ==> r[i + 1].date == NextDay(r[i].date)
    ensures forall i :: 0 <= i < |r| ==> r[i].value == Some(SampleValues[i] as real)
  {
    seq(6, i requires 0 <= i < 6 => CalendarEntry(AddDays(startDate, i), Some(SampleValues[i] as real)))
  }

  /**
   * The sample days are in strictly increasing order, and their values fall in
   * the levels Good, Good, Satisfactory, Poor, Moderate and Severe.
   */
  lemma SampleDataShape(startDate: Date)
    requires startDate.Valid()
    ensures var r := GenerateSampleData(startDate);
      forall i, j :: 0 <= i < j < |r| ==> Before(r[i].date, r[j].date)
    ensures var r := GenerateSampleData(startDate);
      forall i :: 0 <= i < |r| ==>
        PollutionLevels.GetPollutionLevelInfo(r[i].value.value).value == SampleValues[i]
  {
    var r := GenerateSampleData(startDate);
    forall i, j | 0 <= i < j < |r| ensures Before(r[i].date, r[j].date) {
      AddDaysIncreasing(startDate, i, j);
    }
    forall i | 0 <= i < |r|
      ensures PollutionLevels.GetPollutionLevelInfo(r[i].value.value).value == SampleValues[i]
    {
      PollutionLevels.InfoIsClampedCeiling(r[i].value.value);
    }
  }

  /** `calendarData`: nothing until configured, else the fetched days' items, else the sample. */
  function CalendarData(config: Option<CalendarConfig>, pollutionData: seq<DayRecord>): (r: seq<CalendarEntry>)
    requires config.Some? ==> config.value.startDate.Valid()
    ensures config.None? ==> r == []
    ensures config.Some? && |pollutionData| > 0 ==>
      |r| == |pollutionData| && forall i :: 0 <= i < |r| ==> r[i] == pollutionData[i].calendarData
    ensures config.Some? && pollutionData == [] ==> r == GenerateSampleData(config.value.startDate)
  {
    match config
    case None => []
    case Some(c) =>
      if |pollutionData| > 0 then
        seq(|pollutionData|, i requires 0 <= i < |pollutionData| => pollutionData[i].calendarData)
      else
        GenerateSampleData(c.startDate)
  }
}
