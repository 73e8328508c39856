/**
 * Calendar dates as the front end reads them from a JavaScript `Date`:
 * `getFullYear()`, `getMonth()` (zero-based) and `getDate()`. Time of day and
 * time zones are not part of the model.
 */
module Dates {

  datatype Date = Date(year: int, month0: int, day: int) {
    /** What a `Date`'s getters can return: a real day of the proleptic Gregorian calendar. */
    predicate Valid() {
      0 <= month0 < 12 && 1 <= day <= DaysInMonth(year, month0)
    }
  }

  predicate IsLeapYear(year: int) {
    year % 4 == 0 && (year % 100 != 0 || year % 400 == 0)
  }

  function DaysInMonth(year: int, month0: int): (n: int)
    requires 0 <= month0 < 12
    ensures 28 <= n <= 31
    ensures month0 == 1 ==> (n == 29 <==> IsLeapYear(year))
  {
    if month0 == 1 then (if IsLeapYear(year) then 29 else 28)
    else if month0 in {3, 5, 8, 10} then 30
    else 31
  }

  /** Strict chronological order on dates. */
  predicate Before(a: Date, b: Date) {
    a.year < b.year
    || (a.year == b.year && a.month0 < b.month0)
    || (a.year == b.year && a.month0 == b.month0 && a.day < b.day)
  }

  function YearLength(year: int): (n: int)
    ensures n == 365 || n == 366
  {
    if IsLeapYear(year) then 366 else 365
  }

  /** Days in the months of `year` before month `month0`. */
  function DaysBeforeMonth(year: int, month0: int): int
    requires 0 <= month0 <= 12
  {
    if month0 == 0 then 0 else DaysBeforeMonth(year, month0 - 1) + DaysInMonth(year, month0 - 1)
  }

  /** Days from 1 January of year 0 to 1 January of `year` (negative before year 0). */
  function DaysBeforeYear(year: int): int
  {
    365 * year + (year + 3) / 4 - (year + 99) / 100 + (year + 399) / 400
  }

  /** An independent count of days: consecutive days have consecutive numbers. */
  function DayNumber(d: Date): int
    requires d.Valid()
  {
    DaysBeforeYear(d.year) + DaysBeforeMonth(d.year, d.month0) + d.day - 1
  }

  /** Each leap-year correction grows by one exactly when the year is a multiple of its period. */
  lemma FourYearStep(year: int)
    ensures (year + 4) / 4 == (year + 3) / 4 + (if year % 4 == 0 then 1 else 0)
  {
  }

  lemma CenturyStep(year: int)
    ensures (year + 100) / 100 == (year + 99) / 100 + (if year % 100 == 0 then 1 else 0)
  {
  }

  lemma QuadricentennialStep(year: int)
    ensures (year + 400) / 400 == (year + 399) / 400 + (if year % 400 == 0 then 1 else 0)
  {
  }

  /** A multiple of 400 is a multiple of 100, and a multiple of 100 is a multiple of 4. */
  lemma MultiplesNest(year: int)
    ensures year % 400 == 0 ==> year % 100 == 0
    ensures year % 100 == 0 ==> year % 4 == 0
  {
  }

  /** The three corrections together add a day exactly in a leap year. */
  lemma CorrectionsCombine(fours: int, centuries: int, quadricentennials: int, m4: bool, m100: bool, m400: bool)
    requires (m400 ==> m100) && (m100 ==> m4)
    ensures (fours + (if m4 then 1 else 0)) - (centuries + (if m100 then 1 else 0))
      + (quadricentennials + (if m400 then 1 else 0))
      == fours - centuries + quadricentennials + (if m4 && (!m100 || m400) then 1 else 0)
  {
  }

  lemma YearStep(year: int)
    ensures DaysBeforeYear(year + 1) == DaysBeforeYear(year) + YearLength(year)
  {
    FourYearStep(year);
    CenturyStep(year);
    QuadricentennialStep(year);
    MultiplesNest(year);
    CorrectionsCombine((year + 3) / 4, (year + 99) / 100, (year + 399) / 400,
      year % 4 == 0, year % 100 == 0, year % 400 == 0);
  }

  lemma MonthsTotal(year: int)
    ensures DaysBeforeMonth(year, 12) == YearLength(year)
  {
    assert DaysBeforeMonth(year, 1) == 31;
    assert DaysBeforeMonth(year, 2) == 31 + DaysInMonth(year, 1);
    assert DaysBeforeMonth(year, 3) == DaysBeforeMonth(year, 2) + 31;
    assert DaysBeforeMonth(year, 4) == DaysBeforeMonth(year, 2) + 61;
    assert DaysBeforeMonth(year, 5) == DaysBeforeMonth(year, 2) + 92;
    assert DaysBeforeMonth(year, 6) == DaysBeforeMonth(year, 2) + 122;
    assert DaysBeforeMonth(year, 7) == DaysBeforeMonth(year, 2) + 153;
    assert DaysBeforeMonth(year, 8) == DaysBeforeMonth(year, 2) + 184;
    assert DaysBeforeMonth(year, 9) == DaysBeforeMonth(year, 2) + 214;
    assert DaysBeforeMonth(year, 10) == DaysBeforeMonth(year, 2) + 245;
    assert DaysBeforeMonth(year, 11) == DaysBeforeMonth(year, 2) + 275;
  }

  /** The calendar day after `d`. */
  function NextDay(d: Date): (r: Date)
    requires d.Valid()
    ensures r.Valid() && Before(d, r)
    ensures DayNumber(r) == DayNumber(d) + 1
    ensures r.day == 1 <==> d.day == DaysInMonth(d.year, d.month0)
    ensures r.day != 1 ==> r == Date(d.year, d.month0, d.day + 1)
  {
    if d.day < DaysInMonth(d.year, d.month0) then Date(d.year, d.month0, d.day + 1)
    else if d.month0 < 11 then Date(d.year, d.month0 + 1, 1)
    else
      YearStep(d.year);
      MonthsTotal(d.year);
      Date(d.year + 1, 0, 1)
  }

  /** The date `n` days after `d`, one `NextDay` at a time: its day number is `n` higher. */
  function AddDays(d: Date, n: nat): (r: Date)
    requires d.Valid()
    ensures r.Valid()
    ensures DayNumber(r) == DayNumber(d) + n
    ensures n > 0 ==> Before(d, r)
  {
    if n == 0 then d else NextDay(AddDays(d, n - 1))
  }

  /** Valid dates with the same day number are the same date. */
  lemma {:induction false} DayNumberInjective(a: Date, b: Date)
    requires a.Valid() && b.Valid() && DayNumber(a) == DayNumber(b)
    ensures a == b
  {
    if a != b {
      if Before(a, b) {
        BeforeHasSmallerNumber(a, b);
      } else {
        BeforeHasSmallerNumber(b, a);
      }
    }
  }

  lemma {:induction false} MonthsMonotone(year: int, m1: int, m2: int)
    requires 0 <= m1 <= m2 <= 12
    ensures DaysBeforeMonth(year, m1) <= DaysBeforeMonth(year, m2)
    decreases m2
  {
    if m1 < m2 {
      MonthsMonotone(year, m1, m2 - 1);
    }
  }

  lemma {:induction false} YearsMonotone(y1: int, y2: int)
    requires y1 <= y2
    ensures DaysBeforeYear(y1) <= DaysBeforeYear(y2)
    decreases y2 - y1
  {
    if y1 < y2 {
      YearsMonotone(y1, y2 - 1);
      YearStep(y2 - 1);
    }
  }

  /** The day numbers follow the chronological order. */
  lemma BeforeHasSmallerNumber(a: Date, b: Date)
    requires a.Valid() && b.Valid() && Before(a, b)
    ensures DayNumber(a) < DayNumber(b)
  {
    MonthsMonotone(b.year, 0, b.month0);
    if a.year < b.year {
      MonthsMonotone(a.year, a.month0 + 1, 12);
      MonthsTotal(a.year);
      YearStep(a.year);
      YearsMonotone(a.year + 1, b.year);
    } else if a.month0 < b.month0 {
      MonthsMonotone(a.year, a.month0 + 1, b.month0);
    }
  }

  lemma BeforeTransitive(a: Date, b: Date, c: Date)
    requires Before(a, b) && Before(b, c)
    ensures Before(a, c)
  {
  }

  lemma {:induction false} AddDaysIncreasing(d: Date, m: nat, n: nat)
    requires d.Valid() && m < n
    ensures Before(AddDays(d, m), AddDays(d, n))
  {
    if m < n - 1 {
      var early, previous := AddDays(d, m), AddDays(d, n - 1);
      AddDaysIncreasing(d, m, n - 1);
      assert Before(previous, AddDays(d, n));
      BeforeTransitive(early, previous, AddDays(d, n));
    }
  }

  /**
   * The time value range of an ECMAScript `Date`: at most 8.64e15 ms, that is
   * 100,000,000 days, either side of 1970-01-01 (`TimeClip`). A `Date` built
   * outside it is the Invalid Date.
   */
  const MaxTimeDays: int := 100000000

  /** The first and the last day a `Date` can hold. */
  const FirstTimeDay: Date := Date(-271821, 3, 20)
  const LastTimeDay: Date := Date(275760, 8, 13)

  /** `new Date(year, ...)` reads a year from 0 to 99 as 1900 to 1999. */
  function FullYear(year: int): (y: int)
    ensures 0 <= year <= 99 ==> y == 1900 + year
    ensures !(0 <= year <= 99) ==> y == year
  {
    if 0 <= year <= 99 then 1900 + year else year
  }

  /**
   * Days from 1970-01-01 to `new Date(year, month0, day)` read in UTC
   * (`MakeDay`): a month outside 0..11 carries into the year, and a day outside
   * the month counts on from its first day.
   */
  function TimeDay(d: Date): int {
    var year := FullYear(d.year) + d.month0 / 12;
    DaysBeforeYear(year) + DaysBeforeMonth(year, d.month0 % 12) + d.day - 1 - DaysBeforeYear(1970)
  }

  predicate InTimeRange(d: Date) {
    -MaxTimeDays <= TimeDay(d) <= MaxTimeDays
  }

  /** On a real day whose year is not read as 19xx, `TimeDay` is the day count from the epoch. */
  lemma TimeDayOfValid(d: Date)
    requires d.Valid() && !(0 <= d.year <= 99)
    ensures TimeDay(d) == DayNumber(d) - DayNumber(Date(1970, 0, 1))
  {
  }

  /** The two ends of the range lie exactly `MaxTimeDays` from the epoch. */
  lemma TimeRangeEnds()
    ensures FirstTimeDay.Valid() && LastTimeDay.Valid()
    ensures TimeDay(FirstTimeDay) == -MaxTimeDays
    ensures TimeDay(LastTimeDay) == MaxTimeDays
  {
    assert DaysBeforeMonth(-271821, 3) == 90;
    assert DaysBeforeMonth(275760, 4) == 121;
    assert DaysBeforeMonth(275760, 8) == 244;
  }

  /**
   * A real day (with a year not read as 19xx) is in the range exactly when it
   * lies from `FirstTimeDay` to `LastTimeDay`.
   */
  lemma InTimeRangeBetweenEnds(d: Date)
    requires d.Valid() && !(0 <= d.year <= 99)
    ensures InTimeRange(d) <==> !Before(d, FirstTimeDay) && !Before(LastTimeDay, d)
  {
    TimeDayOfValid(d);
    TimeRangeEnds();
    TimeDayOfValid(FirstTimeDay);
    TimeDayOfValid(LastTimeDay);
    if Before(d, FirstTimeDay) {
      BeforeHasSmallerNumber(d, FirstTimeDay);
    } else if d != FirstTimeDay {
      BeforeHasSmallerNumber(FirstTimeDay, d);
    }
    if Before(LastTimeDay, d) {
      BeforeHasSmallerNumber(LastTimeDay, d);
    } else if d != LastTimeDay {
      BeforeHasSmallerNumber(d, LastTimeDay);
    }
  }

  /** `LastTimeDay` is in the range and the day after it is not. */
  lemma PastLastTimeDay()
    ensures InTimeRange(LastTimeDay)
    ensures !InTimeRange(Date(275760, 8, 14))
  {
    InTimeRangeBetweenEnds(LastTimeDay);
    InTimeRangeBetweenEnds(Date(275760, 8, 14));
  }
}
