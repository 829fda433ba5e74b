/**
 * Calendar helpers of src/utils/helpers.py: `get_trading_days` and
 * `get_date_ranges`. A date is its proleptic Gregorian ordinal, as
 * `date.toordinal()` gives it: 0001-01-01 is day 1 and a Monday, so
 * the weekday (Monday = 0 ... Sunday = 6) of day d is (d - 1) mod 7.
 */
module Calendar {
  import opened Wrappers

  function Weekday(d: int): (w: int)
    ensures 0 <= w < 7
  {
    (d - 1) % 7
  }

  predicate IsTradingDay(d: int) {
    Weekday(d) < 5
  }

  predicate StrictlyIncreasing(s: seq<int>) {
    forall i, j :: 0 <= i < j < |s| ==> s[i] < s[j]
  }

  /** `get_trading_days`: the weekdays of the inclusive range
      [start, end], ascending. `includeHolidays` is accepted and unused. */
  function GetTradingDays(start: int, end: int, includeHolidays: bool): (r: seq<int>)
    ensures StrictlyIncreasing(r)
    ensures forall d :: d in r <==> start <= d <= end && IsTradingDay(d)
    ensures r != [] ==> start <= r[0] && r[|r| - 1] <= end
    decreases end - start
  {
    if end < start then []
    else
      var r := GetTradingDays(start, end - 1, includeHolidays);
      if IsTradingDay(end) then r + [end] else r
  }

  /** The holiday flag does not change the result. */
  lemma {:induction false} HolidaysIgnored(start: int, end: int)
    ensures GetTradingDays(start, end, true) == GetTradingDays(start, end, false)
    decreases end - start
  {
    if end >= start {
      HolidaysIgnored(start, end - 1);
    }
  }

  function Indicator(b: bool): int {
    if b then 1 else 0
  }

  /** Extending the range by one day adds that day when it is a trading day. */
  lemma LengthStep(start: int, end: int)
    requires start <= end
    ensures |GetTradingDays(start, end, false)| == |GetTradingDays(start, end - 1, false)| + Indicator(IsTradingDay(end))
  {
  }

  /** Seven consecutive days hold exactly five trading days. */
  lemma WeekHasFiveTradingDays(start: int)
    ensures |GetTradingDays(start, start + 6, false)| == 5
  {
    LengthsFrom(start);
    FiveIndicators(start);
  }

  /** The seven day indicators of a week sum to five. */
  lemma FiveIndicators(start: int)
    ensures Indicator(IsTradingDay(start)) + Indicator(IsTradingDay(start + 1)) + Indicator(IsTradingDay(start + 2))
       + Indicator(IsTradingDay(start + 3)) + Indicator(IsTradingDay(start + 4)) + Indicator(IsTradingDay(start + 5))
       + Indicator(IsTradingDay(start + 6)) == 5
  {
    var w := Weekday(start);
    DayIndicator(start, 1);
    DayIndicator(start, 2);
    DayIndicator(start, 3);
    DayIndicator(start, 4);
    DayIndicator(start, 5);
    DayIndicator(start, 6);
    FiveOfSeven(w);
  }

  /** Day j of a week starting on weekday w is a trading day when (w + j) mod 7 < 5. */
  lemma DayIndicator(start: int, j: nat)
    ensures Indicator(IsTradingDay(start + j)) == Indicator((Weekday(start) + j) % 7 < 5)
  {
    WeekdayShift(start, j);
  }

  /** Whatever weekday a week starts on, five of its seven days are trading days. */
  lemma FiveOfSeven(w: int)
    requires 0 <= w < 7
    ensures Indicator(w < 5) + Indicator((w + 1) % 7 < 5) + Indicator((w + 2) % 7 < 5)
      + Indicator((w + 3) % 7 < 5) + Indicator((w + 4) % 7 < 5) + Indicator((w + 5) % 7 < 5)
      + Indicator((w + 6) % 7 < 5) == 5
  {
    if w == 0 {} else if w == 1 {} else if w == 2 {} else if w == 3 {}
    else if w == 4 {} else if w == 5 {} else {}
  }

  /** The length of a seven-day range is the sum of its day indicators. */
  lemma LengthsFrom(start: int)
    ensures |GetTradingDays(start, start + 6, false)|
      == Indicator(IsTradingDay(start)) + Indicator(IsTradingDay(start + 1)) + Indicator(IsTradingDay(start + 2))
       + Indicator(IsTradingDay(start + 3)) + Indicator(IsTradingDay(start + 4)) + Indicator(IsTradingDay(start + 5))
       + Indicator(IsTradingDay(start + 6))
  {
    assert GetTradingDays(start, start - 1, false) == [];
    LengthStep(start, start);
    LengthStep(start, start + 1);
    LengthStep(start, start + 2);
    LengthStep(start, start + 3);
    LengthStep(start, start + 4);
    LengthStep(start, start + 5);
    LengthStep(start, start + 6);
  }

  lemma WeekdayShift(d: int, j: nat)
    ensures Weekday(d + j) == (Weekday(d) + j) % 7
  {
  }
}

module DateRanges {
  import opened Wrappers
  import Calendar

  predicate IsLeap(y: int) {
    y % 4 == 0 && (y % 100 != 0 || y % 400 == 0)
  }

  function DaysInMonth(y: int, m: int): (n: int)
    requires 1 <= m <= 12
    ensures 28 <= n <= 31
  {
    if m == 2 then (if IsLeap(y) then 29 else 28)
    else if m == 4 || m == 6 || m == 9 || m == 11 then 30
    else 31
  }

  /** A calendar date of the proleptic Gregorian calendar, years 1 to 9999. */
  datatype CivilDate = CivilDate(year: int, month: int, day: int)

  predicate Valid(d: CivilDate) {
    1 <= d.year <= 9999 && 1 <= d.month <= 12 && 1 <= d.day <= DaysInMonth(d.year, d.month)
  }

  /** Each earlier year contributes 365 or 366 days. */
  function DaysBeforeYear(y: int): (n: int)
    requires y >= 1
    ensures 365 * (y - 1) <= n <= 366 * (y - 1)
  {
    var p := y - 1;
    365 * p + p / 4 - p / 100 + p / 400
  }

  function DaysBeforeMonth(y: int, m: int): (n: int)
    requires 1 <= m <= 12
    ensures n >= 0
    decreases m
  {
    if m == 1 then 0 else DaysBeforeMonth(y, m - 1) + DaysInMonth(y, m - 1)
  }

  /** `date.toordinal()`. */
  function Ordinal(d: CivilDate): (n: int)
    requires Valid(d)
    ensures n >= 1
  {
    DaysBeforeYear(d.year) + DaysBeforeMonth(d.year, d.month) + d.day
  }

  /** Days before a month fit within the year: at most 334 in a common year,
      335 in a leap year. */
  lemma DaysBeforeMonthBound(y: int, m: int)
    requires 1 <= m <= 12
    ensures DaysBeforeMonth(y, m) + DaysInMonth(y, m) <= (if IsLeap(y) then 366 else 365)
  {
    DaysBeforeMonthTable(y, m);
  }

  /** Days before each month in a common year. */
  const CommonDaysBefore: seq<int> := [0, 31, 59, 90, 120, 151, 181, 212, 243, 273, 304, 334]

  /** The days before a month: the common-year count, plus one after
      February in a leap year. */
  lemma {:induction false} DaysBeforeMonthTable(y: int, m: int)
    requires 1 <= m <= 12
    ensures DaysBeforeMonth(y, m) == CommonDaysBefore[m - 1] + (if m > 2 && IsLeap(y) then 1 else 0)
    decreases m
  {
    if m > 1 {
      DaysBeforeMonthTable(y, m - 1);
    }
  }

  /** A range of dates given by their ordinals, both ends included. */
  datatype DateRange = DateRange(start: int, end: int)

  /** `get_date_ranges`, with today as a parameter. Going back 365 days from
      a date in the first year of the calendar overflows `date`, which is
      the error case. */
  function GetDateRanges(today: CivilDate): (r: Result<map<string, DateRange>, string>)
    requires Valid(today)
    ensures r.Ok? <==> Ordinal(today) > 365
    ensures r.Ok? ==> r.value.Keys == {"1 Month", "3 Months", "6 Months", "1 Year", "Year to Date"}
    ensures r.Ok? ==> forall n :: n in r.value ==> r.value[n].end == Ordinal(today)
    ensures r.Ok? ==> r.value["1 Month"].start == Ordinal(today) - 30
    ensures r.Ok? ==> r.value["3 Months"].start == Ordinal(today) - 90
    ensures r.Ok? ==> r.value["6 Months"].start == Ordinal(today) - 180
    ensures r.Ok? ==> r.value["1 Year"].start == Ordinal(today) - 365
    ensures r.Ok? ==> r.value["Year to Date"].start == Ordinal(CivilDate(today.year, 1, 1))
  {
    var t := Ordinal(today);
    if t - 365 < 1 then Err("date value out of range")
    else
      Ok(map[
        "1 Month" := DateRange(t - 30, t),
        "3 Months" := DateRange(t - 90, t),
        "6 Months" := DateRange(t - 180, t),
        "1 Year" := DateRange(t - 365, t),
        "Year to Date" := DateRange(Ordinal(CivilDate(today.year, 1, 1)), t)
      ])
  }

  /** The year-to-date range starts on 1 January of the current year: it
      is never empty and never longer than that year. */
  lemma YearToDateWithinYear(today: CivilDate)
    requires Valid(today) && Ordinal(today) > 365
    ensures var ytd := GetDateRanges(today).value["Year to Date"];
      0 <= ytd.end - ytd.start < (if IsLeap(today.year) then 366 else 365)
  {
    DaysBeforeMonthBound(today.year, today.month);
  }

  /** The ranges are nested: each fixed lookback starts no later than the
      next shorter one. */
  lemma RangesNested(today: CivilDate)
    requires Valid(today) && Ordinal(today) > 365
    ensures var r := GetDateRanges(today).value;
      r["1 Year"].start < r["6 Months"].start < r["3 Months"].start < r["1 Month"].start < r["1 Month"].end
  {
  }

  /** The ordinal count agrees with the weekday rule on a known date:
      1 January 2024 was a Monday, and 6 January 2024 a Saturday. */
  lemma OrdinalWeekdays()
    ensures Calendar.Weekday(Ordinal(CivilDate(2024, 1, 1))) == 0
    ensures !Calendar.IsTradingDay(Ordinal(CivilDate(2024, 1, 6)))
  {
    assert DaysBeforeYear(2024) == 738885;
    assert Ordinal(CivilDate(2024, 1, 1)) == 738886;
    assert Ordinal(CivilDate(2024, 1, 6)) == 738891;
  }
}
