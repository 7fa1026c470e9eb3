/**
 * A minimal proleptic Gregorian date, standing in for the library's LocalDate
 * (which is not part of this model): a year, a month 1..12 and a day of month,
 * with the day-of-year, day shifting and month shifting that day-of-quarter
 * resolution uses. Leap years follow the ISO 8601 rule: divisible by 4, except
 * centuries not divisible by 400.
 */
module Calendar {
  import opened Results

  /** The years a LocalDate supports (Year::MIN_VALUE and Year::MAX_VALUE). */
  const MIN_YEAR: int := -999_999_999
  const MAX_YEAR: int := 999_999_999

  predicate IsLeap(year: int)
  {
    year % 4 == 0 && (year % 100 != 0 || year % 400 == 0)
  }

  function YearLength(year: int): (n: int)
    ensures n == 365 || n == 366
    ensures n == 366 <==> IsLeap(year)
  {
    if IsLeap(year) then 366 else 365
  }

  function MonthLength(year: int, month: int): (n: int)
    requires 1 <= month <= 12
    ensures 28 <= n <= 31
  {
    if month == 2 then (if IsLeap(year) then 29 else 28)
    else if month == 4 || month == 6 || month == 9 || month == 11 then 30
    else 31
  }

  /** Total length of the months before `month` (month 13 gives the whole year). */
  function DaysBeforeMonth(year: int, month: int): (n: nat)
    requires 1 <= month <= 13
  {
    if month == 1 then 0 else DaysBeforeMonth(year, month - 1) + MonthLength(year, month - 1)
  }

  /** The cumulative month lengths, month by month. */
  lemma DaysBeforeMonthTable(year: int)
    ensures var l := if IsLeap(year) then 1 else 0;
      DaysBeforeMonth(year, 1) == 0 && DaysBeforeMonth(year, 2) == 31 &&
      DaysBeforeMonth(year, 3) == 59 + l && DaysBeforeMonth(year, 4) == 90 + l &&
      DaysBeforeMonth(year, 5) == 120 + l && DaysBeforeMonth(year, 6) == 151 + l &&
      DaysBeforeMonth(year, 7) == 181 + l && DaysBeforeMonth(year, 8) == 212 + l &&
      DaysBeforeMonth(year, 9) == 243 + l && DaysBeforeMonth(year, 10) == 273 + l &&
      DaysBeforeMonth(year, 11) == 304 + l && DaysBeforeMonth(year, 12) == 334 + l &&
      DaysBeforeMonth(year, 13) == YearLength(year)
  {
    var l := if IsLeap(year) then 1 else 0;
    assert DaysBeforeMonth(year, 2) == 31;
    assert DaysBeforeMonth(year, 3) == 59 + l;
    assert DaysBeforeMonth(year, 4) == 90 + l;
    assert DaysBeforeMonth(year, 5) == 120 + l;
    assert DaysBeforeMonth(year, 6) == 151 + l;
    assert DaysBeforeMonth(year, 7) == 181 + l;
    assert DaysBeforeMonth(year, 8) == 212 + l;
    assert DaysBeforeMonth(year, 9) == 243 + l;
    assert DaysBeforeMonth(year, 10) == 273 + l;
    assert DaysBeforeMonth(year, 11) == 304 + l;
    assert DaysBeforeMonth(year, 12) == 334 + l;
  }

  /** Later months start later: each month adds its whole length. */
  lemma {:induction false} DaysBeforeMonthMonotone(year: int, i: int, j: int)
    requires 1 <= i <= j <= 13
    ensures DaysBeforeMonth(year, i) + 28 * (j - i) <= DaysBeforeMonth(year, j)
    decreases j - i
  {
    if i < j {
      DaysBeforeMonthMonotone(year, i, j - 1);
    }
  }

  datatype Date = Date(year: int, month: int, day: int)

  predicate Valid(d: Date)
  {
    1 <= d.month <= 12 && 1 <= d.day <= MonthLength(d.year, d.month)
  }

  /** A date inside the years a LocalDate accepts. */
  predicate InSupportedRange(d: Date)
  {
    MIN_YEAR <= d.year <= MAX_YEAR
  }

  function DayOfYear(d: Date): (n: int)
    requires Valid(d)
    ensures DaysBeforeMonth(d.year, d.month) < n <= DaysBeforeMonth(d.year, d.month + 1)
    ensures 1 <= n <= YearLength(d.year)
  {
    DaysBeforeMonthTable(d.year);
    DaysBeforeMonthMonotone(d.year, d.month + 1, 13);
    DaysBeforeMonth(d.year, d.month) + d.day
  }

  /** The first day of the month after d's month. */
  function NextMonthStart(d: Date): (r: Date)
    requires Valid(d)
    ensures Valid(r)
  {
    if d.month == 12 then Date(d.year + 1, 1, 1) else Date(d.year, d.month + 1, 1)
  }

  /** The last day of the month before d's month. */
  function PrevMonthEnd(d: Date): (r: Date)
    requires Valid(d)
    ensures Valid(r)
  {
    if d.month == 1 then Date(d.year - 1, 12, 31)
    else Date(d.year, d.month - 1, MonthLength(d.year, d.month - 1))
  }

  /**
   * The date `days` days after d (before it when negative), stepping a month
   * at a time: LocalDate::plusDays with unbounded years.
   */
  function PlusDays(d: Date, days: int): (r: Date)
    requires Valid(d)
    ensures Valid(r)
    decreases if days < 0 then -days else days
  {
    if days == 0 then d
    else if days > 0 then
      var len := MonthLength(d.year, d.month);
      if d.day + days <= len then Date(d.year, d.month, d.day + days)
      else PlusDays(NextMonthStart(d), days - (len - d.day + 1))
    else
      if d.day + days >= 1 then Date(d.year, d.month, d.day + days)
      else PlusDays(PrevMonthEnd(d), days + d.day)
  }

  /**
   * The date `months` months after d, its day of month clamped to the length
   * of the target month: LocalDate::plusMonths with unbounded years.
   */
  function PlusMonths(d: Date, months: int): (r: Date)
    requires Valid(d)
    ensures Valid(r)
    ensures r.year * 12 + r.month == d.year * 12 + d.month + months
    ensures r.day == if d.day <= MonthLength(r.year, r.month) then d.day else MonthLength(r.year, r.month)
  {
    var total := d.year * 12 + (d.month - 1) + months;
    var year := total / 12;
    var month := total % 12 + 1;
    var len := MonthLength(year, month);
    Date(year, month, if d.day <= len then d.day else len)
  }

  /**
   * LocalDate::with(DAY_OF_YEAR, dayOfYear): the same year at that day-of-year,
   * failing outside 1..length of the year.
   */
  function WithDayOfYear(d: Date, dayOfYear: int): (r: Result<Date>)
    requires Valid(d)
    ensures r.Ok? <==> 1 <= dayOfYear <= YearLength(d.year)
    ensures r.Err? ==> r.error == InvalidValue("DayOfYear", dayOfYear)
    ensures r.Ok? ==> Valid(r.value) && r.value.year == d.year && DayOfYear(r.value) == dayOfYear
  {
    if 1 <= dayOfYear <= YearLength(d.year) then
      var first := Date(d.year, 1, 1);
      PlusDaysWithinYear(first, dayOfYear - 1);
      Ok(PlusDays(first, dayOfYear - 1))
    else
      Err(InvalidValue("DayOfYear", dayOfYear))
  }

  // ---------------------------------------------------------------- epoch days

  /** Days from 1970-01-01 to the first day of `year`. */
  function YearStart(year: int): int
    decreases if year < 1970 then 1970 - year else year - 1970
  {
    if year == 1970 then 0
    else if year > 1970 then YearStart(year - 1) + YearLength(year - 1)
    else YearStart(year + 1) - YearLength(year)
  }

  /** Days from 1970-01-01 to d: the partner that PlusDays is a shift of. */
  function EpochDay(d: Date): int
    requires Valid(d)
  {
    YearStart(d.year) + DayOfYear(d) - 1
  }

  lemma YearStartStep(year: int)
    ensures YearStart(year + 1) == YearStart(year) + YearLength(year)
  {
  }

  lemma {:induction false} YearStartMonotone(a: int, b: int)
    requires a < b
    ensures YearStart(a + 1) <= YearStart(b)
    decreases b - a
  {
    if a + 1 < b {
      YearStartMonotone(a, b - 1);
      YearStartStep(b - 1);
    }
  }

  lemma NextMonthStartEpochDay(d: Date)
    requires Valid(d)
    ensures EpochDay(NextMonthStart(d)) == EpochDay(d) + MonthLength(d.year, d.month) - d.day + 1
  {
    if d.month == 12 {
      DaysBeforeMonthTable(d.year);
      YearStartStep(d.year);
    }
  }

  lemma PrevMonthEndEpochDay(d: Date)
    requires Valid(d)
    ensures EpochDay(PrevMonthEnd(d)) == EpochDay(d) - d.day
  {
    if d.month == 1 {
      DaysBeforeMonthTable(d.year - 1);
      YearStartStep(d.year - 1);
    }
  }

  /** PlusDays moves the epoch day by exactly the number of days added. */
  lemma {:induction false} PlusDaysEpochDay(d: Date, days: int)
    requires Valid(d)
    ensures EpochDay(PlusDays(d, days)) == EpochDay(d) + days
    decreases if days < 0 then -days else days
  {
    if days > 0 && d.day + days > MonthLength(d.year, d.month) {
      NextMonthStartEpochDay(d);
      PlusDaysEpochDay(NextMonthStart(d), days - (MonthLength(d.year, d.month) - d.day + 1));
    } else if days < 0 && d.day + days < 1 {
      PrevMonthEndEpochDay(d);
      PlusDaysEpochDay(PrevMonthEnd(d), days + d.day);
    }
  }

  /** A valid date lies inside its own year's run of epoch days. */
  lemma EpochDayInYear(d: Date)
    requires Valid(d)
    ensures YearStart(d.year) <= EpochDay(d) < YearStart(d.year + 1)
  {
    YearStartStep(d.year);
  }

  /** Distinct valid dates have distinct epoch days. */
  lemma EpochDayInjective(a: Date, b: Date)
    requires Valid(a) && Valid(b)
    requires EpochDay(a) == EpochDay(b)
    ensures a == b
  {
    assert a.year == b.year by {
      EpochDayInYear(a);
      EpochDayInYear(b);
      if a.year < b.year {
        YearStartMonotone(a.year, b.year);
      } else if b.year < a.year {
        YearStartMonotone(b.year, a.year);
      }
    }
    DayOfYearInjective(a, b);
  }

  /** Within one year, distinct valid dates have distinct days-of-year. */
  lemma DayOfYearInjective(a: Date, b: Date)
    requires Valid(a) && Valid(b) && a.year == b.year
    requires DayOfYear(a) == DayOfYear(b)
    ensures a == b
  {
    if a.month < b.month {
      DaysBeforeMonthMonotone(a.year, a.month + 1, b.month);
    } else if b.month < a.month {
      DaysBeforeMonthMonotone(a.year, b.month + 1, a.month);
    }
  }

  /** PlusDays(d, n) is the one valid date whose epoch day is n after d's. */
  lemma PlusDaysUnique(d: Date, days: int, e: Date)
    requires Valid(d) && Valid(e)
    requires EpochDay(e) == EpochDay(d) + days
    ensures PlusDays(d, days) == e
  {
    PlusDaysEpochDay(d, days);
    EpochDayInjective(PlusDays(d, days), e);
  }

  /** Adding days that stay inside the year keeps the year and adds to the day-of-year. */
  lemma PlusDaysWithinYear(d: Date, days: int)
    requires Valid(d)
    requires 0 <= days && DayOfYear(d) + days <= YearLength(d.year)
    ensures PlusDays(d, days).year == d.year
    ensures DayOfYear(PlusDays(d, days)) == DayOfYear(d) + days
  {
    var r := PlusDays(d, days);
    PlusDaysEpochDay(d, days);
    EpochDayInYear(r);
    EpochDayInYear(d);
    YearStartStep(d.year);
    if r.year < d.year {
      YearStartMonotone(r.year, d.year);
    } else if r.year > d.year {
      YearStartMonotone(d.year, r.year);
    }
  }
}
