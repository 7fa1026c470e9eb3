/**
 * The day-of-quarter field: its default and refined ranges, extraction from a
 * date, adjustment of a date, and resolution of {year, quarter-of-year,
 * day-of-quarter} into a date under the STRICT, SMART and LENIENT styles.
 */
module DayOfQuarter {
  import opened Results
  import opened Calendar
  import VR = ValueRange
  import Integer

  // ------------------------------------------------------------ 64-bit PHP ints

  const LONG_MIN: int := -0x8000_0000_0000_0000
  const LONG_MAX: int := 0x7FFF_FFFF_FFFF_FFFF

  predicate IsLong(v: int) { LONG_MIN <= v <= LONG_MAX }

  /** Math::subtractExact: the difference, or an overflow error when it leaves 64 bits. */
  function SubtractExact(a: int, b: int): (r: Result<int>)
    ensures r.Ok? <==> IsLong(a - b)
    ensures r.Ok? ==> r.value == a - b
    ensures r.Err? ==> r.error == ArithmeticOverflow
  {
    if IsLong(a - b) then Ok(a - b) else Err(ArithmeticOverflow)
  }

  /** Math::multiplyExact: the product, or an overflow error when it leaves 64 bits. */
  function MultiplyExact(a: int, b: int): (r: Result<int>)
    ensures r.Ok? <==> IsLong(a * b)
    ensures r.Ok? ==> r.value == a * b
    ensures r.Err? ==> r.error == ArithmeticOverflow
  {
    if IsLong(a * b) then Ok(a * b) else Err(ArithmeticOverflow)
  }

  // ------------------------------------------------------------ fields, ranges, quarters

  /** The keys of a field-value map, by the names the library gives them. */
  datatype Field = YearField | QuarterOfYearField | DayOfQuarterField | OtherField(name: string)

  type FieldMap = map<Field, int>

  datatype ResolverStyle = Strict | Smart | Lenient

  /**
   * The temporal a field is asked about: an ISO date carrying day-of-year,
   * month and year, or anything lacking them.
   */
  datatype Temporal = IsoDate(date: Date) | NotSupported

  predicate WellFormed(t: Temporal) { t.IsoDate? ==> Valid(t.date) }

  const FIELD_NAME: string := "DayOfQuarter"

  /** ChronoField::YEAR's range and IsoFields::QUARTER_OF_YEAR's range. */
  const YEAR_RANGE: VR.ValueRange := VR.Of(MIN_YEAR, MAX_YEAR)
  const QUARTER_RANGE: VR.ValueRange := VR.Of(1, 4)

  /** Every year the year range accepts fits a 32-bit int. */
  lemma YearRangeFitsInt()
    ensures YEAR_RANGE.IsIntValue()
    ensures forall y :: YEAR_RANGE.IsValidValue(y) ==> Integer.IsInt32(y)
  {
  }

  /** Days before the start of each quarter, common years first, then leap years. */
  const QUARTER_DAYS: seq<int> := [0, 90, 181, 273, 0, 91, 182, 274]

  /** The default range: 1 to 90 at least, 92 at most. */
  function Range(): (r: VR.ValueRange)
    ensures r.minSmallest == 1 && r.maxSmallest == 90 && r.maxLargest == 92
    ensures forall v :: r.IsValidValue(v) <==> 1 <= v <= 92
  {
    VR.OfVariable(1, 90, 92)
  }

  function QuarterOf(d: Date): (q: int)
    requires Valid(d)
    ensures 1 <= q <= 4
  {
    (d.month - 1) / 3 + 1
  }

  function FirstMonthOfQuarter(q: int): int
  {
    (q - 1) * 3 + 1
  }

  /** The number of days in quarter q of a year: the total of its three months. */
  function QuarterLength(year: int, q: int): int
    requires 1 <= q <= 4
  {
    DaysBeforeMonth(year, FirstMonthOfQuarter(q) + 3) - DaysBeforeMonth(year, FirstMonthOfQuarter(q))
  }

  /** Q1 has 90 days (91 in a leap year), Q2 91, Q3 and Q4 92 each. */
  lemma QuarterLengths(year: int)
    ensures QuarterLength(year, 1) == if IsLeap(year) then 91 else 90
    ensures QuarterLength(year, 2) == 91
    ensures QuarterLength(year, 3) == 92 && QuarterLength(year, 4) == 92
  {
    DaysBeforeMonthTable(year);
  }

  /** QUARTER_DAYS at q - 1 (+4 in a leap year) is the number of days before quarter q. */
  lemma QuarterDaysTable(year: int, q: int)
    requires 1 <= q <= 4
    ensures QUARTER_DAYS[(q - 1) + (if IsLeap(year) then 4 else 0)] == DaysBeforeMonth(year, FirstMonthOfQuarter(q))
  {
    DaysBeforeMonthTable(year);
  }

  /** The range for a quarter-of-year value, once the temporal is known to be supported. */
  function RangeForQuarter(qoy: int, year: int): (r: VR.ValueRange)
    ensures 1 <= qoy <= 4 ==> r == VR.Of(1, QuarterLength(year, qoy))
    ensures !(1 <= qoy <= 4) ==> r == Range()
  {
    QuarterLengths(year);
    if qoy == 1 then (if IsLeap(year) then VR.Of(1, 91) else VR.Of(1, 90))
    else if qoy == 2 then VR.Of(1, 91)
    else if qoy == 3 || qoy == 4 then VR.Of(1, 92)
    else Range()
  }

  /** The exact range of the field for a temporal: the length of the temporal's quarter. */
  function RangeRefinedBy(t: Temporal): (r: Result<VR.ValueRange>)
    requires WellFormed(t)
    ensures r.Err? <==> t.NotSupported?
    ensures r.Err? ==> r.error == UnsupportedTemporalType("Unsupported field: DayOfQuarter")
    ensures r.Ok? ==> r.value == VR.Of(1, QuarterLength(t.date.year, QuarterOf(t.date)))
  {
    match t
    case NotSupported => Err(UnsupportedTemporalType("Unsupported field: DayOfQuarter"))
    case IsoDate(d) => Ok(RangeForQuarter(QuarterOf(d), d.year))
  }

  /** The day-of-quarter of a date: its day-of-year less the days before its quarter. */
  function GetFrom(t: Temporal): (r: Result<int>)
    requires WellFormed(t)
    ensures r.Err? <==> t.NotSupported?
    ensures r.Err? ==> r.error == UnsupportedTemporalType("Unsupported field: DayOfQuarter")
    ensures r.Ok? ==> var d := t.date;
      r.value == DayOfYear(d) - DaysBeforeMonth(d.year, FirstMonthOfQuarter(QuarterOf(d))) &&
      1 <= r.value <= QuarterLength(d.year, QuarterOf(d))
  {
    match t
    case NotSupported => Err(UnsupportedTemporalType("Unsupported field: DayOfQuarter"))
    case IsoDate(d) =>
      QuarterBounds(d);
      Ok(DayOfYear(d) - QUARTER_DAYS[(d.month - 1) / 3 + (if IsLeap(d.year) then 4 else 0)])
  }

  /** A date's day-of-year lies inside the span of its quarter, which QUARTER_DAYS starts. */
  lemma QuarterBounds(d: Date)
    requires Valid(d)
    ensures var first := FirstMonthOfQuarter(QuarterOf(d));
      QUARTER_DAYS[(d.month - 1) / 3 + (if IsLeap(d.year) then 4 else 0)] == DaysBeforeMonth(d.year, first) &&
      DaysBeforeMonth(d.year, first) < DayOfYear(d) <= DaysBeforeMonth(d.year, first + 3)
  {
    DaysBeforeMonthTable(d.year);
    if d.month <= 3 {
      assert QuarterOf(d) == 1;
    } else if d.month <= 6 {
      assert QuarterOf(d) == 2;
    } else if d.month <= 9 {
      assert QuarterOf(d) == 3;
    } else {
      assert QuarterOf(d) == 4;
    }
  }

  /** A date whose day-of-year is the k-th day of quarter q lies in quarter q. */
  lemma InQuarter(d: Date, q: int, k: int)
    requires Valid(d) && 1 <= q <= 4
    requires 1 <= k <= QuarterLength(d.year, q)
    requires DayOfYear(d) == DaysBeforeMonth(d.year, FirstMonthOfQuarter(q)) + k
    ensures QuarterOf(d) == q
    ensures GetFrom(IsoDate(d)) == Ok(k)
  {
    var first := FirstMonthOfQuarter(q);
    if d.month < first {
      DaysBeforeMonthMonotone(d.year, d.month + 1, first);
      assert false;
    } else if d.month >= first + 3 {
      DaysBeforeMonthMonotone(d.year, first + 3, d.month);
      assert false;
    }
  }

  /**
   * Moves a date to day-of-quarter newValue by shifting its day-of-year by
   * newValue less the current value; newValue must lie in 1..92.
   */
  function AdjustInto(t: Temporal, newValue: int): (r: Result<Temporal>)
    requires WellFormed(t)
    ensures t.NotSupported? ==> r == Err(UnsupportedTemporalType("Unsupported field: DayOfQuarter"))
    ensures t.IsoDate? ==> (r.Ok? <==> 1 <= newValue <= 92)
    ensures t.IsoDate? && r.Err? ==> r.error == InvalidValue(FIELD_NAME, newValue)
    ensures r.Ok? ==> r.value.IsoDate? && WellFormed(r.value) && r.value.date.year == t.date.year
    ensures r.Ok? ==> DayOfYear(r.value.date) == DayOfYear(t.date) + (newValue - GetFrom(t).value)
  {
    match GetFrom(t)
    case Err(e) => Err(e)
    case Ok(curValue) =>
      match Range().CheckValidValue(newValue, FIELD_NAME)
      case Err(e) => Err(e)
      case Ok(_) =>
        var d := t.date;
        QuarterDaysTable(d.year, QuarterOf(d));
        DaysBeforeMonthTable(d.year);
        assert DayOfYear(d) + (newValue - curValue) <= YearLength(d.year);
        match WithDayOfYear(d, DayOfYear(d) + (newValue - curValue))
        case Err(e) => Err(e)
        case Ok(moved) => Ok(IsoDate(moved))
  }

  /** Adjusting to a value inside the current quarter's length reads back as that value. */
  lemma AdjustIntoGetFrom(t: Temporal, newValue: int)
    requires WellFormed(t) && t.IsoDate?
    requires 1 <= newValue <= QuarterLength(t.date.year, QuarterOf(t.date))
    ensures AdjustInto(t, newValue).Ok?
    ensures GetFrom(AdjustInto(t, newValue).value) == Ok(newValue)
  {
    QuarterLengths(t.date.year);
    var moved := AdjustInto(t, newValue).value.date;
    InQuarter(moved, QuarterOf(t.date), newValue);
  }

  // ------------------------------------------------------------ resolution

  /** What one resolution step gives: no progress, or a date and the map left after consuming. */
  datatype Resolution = NoProgress | Resolved(date: Date, residual: FieldMap)

  /** A key counts as missing when it is absent or loosely equal to null, which 0 is. */
  predicate LooselyNull(fields: FieldMap, f: Field)
  {
    f !in fields || fields[f] == 0
  }

  predicate AllLong(fields: FieldMap)
  {
    forall f | f in fields :: IsLong(fields[f])
  }

  /** LENIENT: month and day arithmetic from January 1st, rolling over freely. */
  function ResolveLenient(year: int, qoyLong: int, doq: int): (r: Result<Date>)
    requires IsLong(qoyLong) && IsLong(doq)
    ensures r.Ok? ==> Valid(r.value) && InSupportedRange(r.value)
    ensures !IsLong((qoyLong - 1) * 3) ==> r == Err(ArithmeticOverflow)
  {
    match SubtractExact(qoyLong, 1)
    case Err(e) => Err(e)
    case Ok(quarters) =>
      match MultiplyExact(quarters, 3)
      case Err(e) => Err(e)
      case Ok(months) =>
        var start := PlusMonths(Date(year, 1, 1), months);
        if !InSupportedRange(start) then Err(DateOutOfRange)
        else
          match SubtractExact(doq, 1)
          case Err(e) => Err(e)
          case Ok(days) =>
            var date := PlusDays(start, days);
            if InSupportedRange(date) then Ok(date) else Err(DateOutOfRange)
  }

  /** STRICT and SMART: the quarter must be 1..4; a day-of-quarter outside 1..90 is range-checked. */
  function ResolveChecked(strict: bool, year: int, qoyLong: int, doq: int): (r: Result<Date>)
    ensures r.Ok? ==> Valid(r.value)
    ensures r.Ok? ==> 1 <= qoyLong <= 4
  {
    match QUARTER_RANGE.CheckValidIntValue(qoyLong, "QuarterOfYear")
    case Err(e) => Err(e)
    case Ok(qoy) =>
      var start := Date(year, (qoy - 1) * 3 + 1, 1);
      var checked :=
        if doq < 1 || doq > 90 then
          if strict then
            match RangeRefinedBy(IsoDate(start))
            case Err(e) => Err(e)
            case Ok(exact) => exact.CheckValidValue(doq, FIELD_NAME)
          else
            Range().CheckValidValue(doq, FIELD_NAME)
        else
          Ok(doq);
      match checked
      case Err(e) => Err(e)
      case Ok(_) => Ok(PlusDays(start, doq - 1))
  }

  /**
   * One resolution step of the field over a field-value map. It needs YEAR and
   * QUARTER_OF_YEAR, treating an absent or zero value as missing; the year is
   * always validated; on success the three keys are consumed.
   */
  function Resolve(fields: FieldMap, style: ResolverStyle): (r: Result<Resolution>)
    requires DayOfQuarterField in fields && AllLong(fields)
    ensures r == Ok(NoProgress) <==> LooselyNull(fields, YearField) || LooselyNull(fields, QuarterOfYearField)
    ensures r.Ok? && r.value.Resolved? ==>
      Valid(r.value.date) && Integer.IsInt32(fields[YearField]) &&
      (forall f :: f in r.value.residual <==>
         f in fields && f != YearField && f != QuarterOfYearField && f != DayOfQuarterField) &&
      (forall f | f in r.value.residual :: r.value.residual[f] == fields[f])
  {
    if LooselyNull(fields, YearField) || LooselyNull(fields, QuarterOfYearField) then Ok(NoProgress)
    else
      match YEAR_RANGE.CheckValidIntValue(fields[YearField], "Year")
      case Err(e) => Err(e)
      case Ok(year) =>
        match ResolveDate(year, fields[QuarterOfYearField], fields[DayOfQuarterField], style)
        case Err(e) => Err(e)
        case Ok(d) => Ok(Resolved(d, fields - {DayOfQuarterField, YearField, QuarterOfYearField}))
  }

  /** The date a style resolves a validated year, a quarter and a day-of-quarter to. */
  function ResolveDate(year: int, qoyLong: int, doq: int, style: ResolverStyle): (r: Result<Date>)
    requires MIN_YEAR <= year <= MAX_YEAR && IsLong(qoyLong) && IsLong(doq)
    ensures r.Ok? ==> Valid(r.value)
  {
    if style == Lenient then ResolveLenient(year, qoyLong, doq)
    else ResolveChecked(style == Strict, year, qoyLong, doq)
  }

  // ------------------------------------------------------------ properties of resolution

  /** A map on which resolution gets past the missing-field test. */
  predicate Progressing(fields: FieldMap)
  {
    DayOfQuarterField in fields && AllLong(fields) &&
    !LooselyNull(fields, YearField) && !LooselyNull(fields, QuarterOfYearField)
  }

  /** The year is validated under every style, before anything else is looked at. */
  lemma ResolveChecksYear(fields: FieldMap, style: ResolverStyle)
    requires Progressing(fields)
    requires !(MIN_YEAR <= fields[YearField] <= MAX_YEAR)
    ensures Resolve(fields, style) == Err(InvalidValue("Year", fields[YearField]))
  {
  }

  /** The first day of quarter q is the first of its first month, and how far it is into the year. */
  lemma QuarterStart(year: int, q: int)
    requires 1 <= q <= 4
    ensures Valid(Date(year, FirstMonthOfQuarter(q), 1))
    ensures QuarterOf(Date(year, FirstMonthOfQuarter(q), 1)) == q
    ensures DayOfYear(Date(year, FirstMonthOfQuarter(q), 1)) == DaysBeforeMonth(year, FirstMonthOfQuarter(q)) + 1
    ensures DaysBeforeMonth(year, FirstMonthOfQuarter(q)) + 92 <= YearLength(year)
  {
    DaysBeforeMonthTable(year);
  }

  /** Past the missing-field test and the year check, Resolve is ResolveDate plus consumption. */
  lemma ResolveUnfold(fields: FieldMap, style: ResolverStyle)
    requires Progressing(fields)
    requires MIN_YEAR <= fields[YearField] <= MAX_YEAR
    ensures var r := Resolve(fields, style);
      var d := ResolveDate(fields[YearField], fields[QuarterOfYearField], fields[DayOfQuarterField], style);
      (r.Ok? <==> d.Ok?) && (r.Ok? ==> r.value.Resolved? && r.value.date == d.value)
  {
  }

  /**
   * For quarters 1..4 the checked styles yield the doq-th day from the quarter's
   * start when doq is in the style's range (the quarter's exact length for STRICT,
   * 1..92 for SMART), and an error naming the field otherwise.
   */
  lemma CheckedUnfold(strict: bool, year: int, q: int, doq: int)
    ensures !(1 <= q <= 4) ==> ResolveChecked(strict, year, q, doq) == Err(InvalidValue("QuarterOfYear", q))
    ensures 1 <= q <= 4 ==> (
      Valid(Date(year, FirstMonthOfQuarter(q), 1)) &&
      ResolveChecked(strict, year, q, doq) ==
        if 1 <= doq <= (if strict then QuarterLength(year, q) else 92)
        then Ok(PlusDays(Date(year, FirstMonthOfQuarter(q), 1), doq - 1))
        else Err(InvalidValue(FIELD_NAME, doq)))
  {
    if 1 <= q <= 4 {
      QuarterStart(year, q);
      QuarterLengthBounds(year, q);
      var start := Date(year, FirstMonthOfQuarter(q), 1);
      var length := QuarterLength(year, q);
      assert RangeRefinedBy(IsoDate(start)) == Ok(VR.Of(1, length));
    }
  }

  lemma QuarterLengthBounds(year: int, q: int)
    requires 1 <= q <= 4
    ensures 90 <= QuarterLength(year, q) <= 92
  {
    QuarterLengths(year);
  }

  /** STRICT's date exists for quarters 1..4 and days of the quarter, and is that day of that quarter. */
  lemma CheckedStrict(year: int, q: int, doq: int)
    ensures var r := ResolveChecked(true, year, q, doq);
      (r.Ok? <==> 1 <= q <= 4 && 1 <= doq <= QuarterLength(year, q)) &&
      (r.Ok? ==> r.value.year == year && QuarterOf(r.value) == q && GetFrom(IsoDate(r.value)) == Ok(doq))
  {
    CheckedUnfold(true, year, q, doq);
    CheckedUnfold(false, year, q, doq);
    if 1 <= q <= 4 {
      QuarterLengths(year);
      if 1 <= doq <= QuarterLength(year, q) {
        CheckedSmart(year, q, doq);
        InQuarter(ResolveChecked(false, year, q, doq).value, q, doq);
      }
    }
  }

  /** SMART's date exists for quarters 1..4 and days 1..92, and is that many days into the quarter. */
  lemma CheckedSmart(year: int, q: int, doq: int)
    ensures var r := ResolveChecked(false, year, q, doq);
      (r.Ok? <==> 1 <= q <= 4 && 1 <= doq <= 92) &&
      (r.Ok? ==> r.value.year == year && DayOfYear(r.value) == DaysBeforeMonth(year, FirstMonthOfQuarter(q)) + doq) &&
      (r.Ok? && doq <= QuarterLength(year, q) ==> GetFrom(IsoDate(r.value)) == Ok(doq))
  {
    CheckedUnfold(false, year, q, doq);
    if 1 <= q <= 4 && 1 <= doq <= 92 {
      QuarterStart(year, q);
      var start := Date(year, FirstMonthOfQuarter(q), 1);
      PlusDaysWithinYear(start, doq - 1);
      if doq <= QuarterLength(year, q) {
        InQuarter(PlusDays(start, doq - 1), q, doq);
      }
    }
  }

  /**
   * STRICT accepts exactly the quarters 1..4 and the days of the quarter's own
   * length, and then yields the doq-th day of that quarter.
   */
  lemma ResolveStrict(fields: FieldMap)
    requires Progressing(fields)
    requires MIN_YEAR <= fields[YearField] <= MAX_YEAR
    ensures var r := Resolve(fields, Strict);
      var y, q, doq := fields[YearField], fields[QuarterOfYearField], fields[DayOfQuarterField];
      (r.Ok? <==> 1 <= q <= 4 && 1 <= doq <= QuarterLength(y, q)) &&
      (r.Ok? ==> r.value.Resolved? && r.value.date.year == y && QuarterOf(r.value.date) == q &&
                 GetFrom(IsoDate(r.value.date)) == Ok(doq))
  {
    ResolveUnfold(fields, Strict);
    CheckedStrict(fields[YearField], fields[QuarterOfYearField], fields[DayOfQuarterField]);
  }

  /**
   * SMART accepts the quarters 1..4 and any day-of-quarter in 1..92, so that a
   * value past the end of a short quarter rolls into the next one in the same year.
   */
  lemma ResolveSmart(fields: FieldMap)
    requires Progressing(fields)
    requires MIN_YEAR <= fields[YearField] <= MAX_YEAR
    ensures var r := Resolve(fields, Smart);
      var y, q, doq := fields[YearField], fields[QuarterOfYearField], fields[DayOfQuarterField];
      (r.Ok? <==> 1 <= q <= 4 && 1 <= doq <= 92) &&
      (r.Ok? ==> r.value.Resolved? && r.value.date.year == y &&
                 DayOfYear(r.value.date) == DaysBeforeMonth(y, FirstMonthOfQuarter(q)) + doq) &&
      (r.Ok? && doq <= QuarterLength(y, q) ==> GetFrom(IsoDate(r.value.date)) == Ok(doq))
  {
    ResolveUnfold(fields, Smart);
    CheckedSmart(fields[YearField], fields[QuarterOfYearField], fields[DayOfQuarterField]);
  }

  /** LENIENT reaches the first day of quarter q of the year for q in 1..4. */
  lemma LenientQuarterStart(year: int, q: int)
    requires 1 <= q <= 4
    ensures PlusMonths(Date(year, 1, 1), (q - 1) * 3) == Date(year, FirstMonthOfQuarter(q), 1)
  {
    var r := PlusMonths(Date(year, 1, 1), (q - 1) * 3);
    assert r.year * 12 + r.month == year * 12 + FirstMonthOfQuarter(q);
    assert r.year == year;
  }

  /** Wherever SMART resolves, LENIENT resolves to the same date and residual map. */
  lemma ResolveLenientAgreesWithSmart(fields: FieldMap)
    requires DayOfQuarterField in fields && AllLong(fields)
    requires Resolve(fields, Smart).Ok?
    ensures Resolve(fields, Lenient) == Resolve(fields, Smart)
  {
    if Progressing(fields) {
      var y, q, doq := fields[YearField], fields[QuarterOfYearField], fields[DayOfQuarterField];
      assert MIN_YEAR <= y <= MAX_YEAR;
      LenientAgreesWithChecked(y, q, doq);
    }
  }

  /** Where SMART's checked path yields a date, LENIENT's arithmetic yields the same one. */
  lemma LenientAgreesWithChecked(year: int, q: int, doq: int)
    requires MIN_YEAR <= year <= MAX_YEAR && IsLong(q) && IsLong(doq)
    requires ResolveChecked(false, year, q, doq).Ok?
    ensures ResolveLenient(year, q, doq) == ResolveChecked(false, year, q, doq)
  {
    assert 1 <= q <= 4 && 1 <= doq <= 92 && Valid(Date(year, FirstMonthOfQuarter(q), 1)) by {
      CheckedUnfold(false, year, q, doq);
    }
    var date := PlusDays(Date(year, FirstMonthOfQuarter(q), 1), doq - 1);
    assert ResolveChecked(false, year, q, doq) == Ok(date) && date.year == year by {
      CheckedUnfold(false, year, q, doq);
      CheckedSmart(year, q, doq);
    }
    LenientFromQuarterStart(year, q, doq);
  }

  /** For quarters 1..4, LENIENT counts doq - 1 days from the quarter's first day. */
  lemma LenientFromQuarterStart(year: int, q: int, doq: int)
    requires MIN_YEAR <= year <= MAX_YEAR && 1 <= q <= 4 && IsLong(doq) && IsLong(doq - 1)
    ensures Valid(Date(year, FirstMonthOfQuarter(q), 1))
    ensures var date := PlusDays(Date(year, FirstMonthOfQuarter(q), 1), doq - 1);
      ResolveLenient(year, q, doq) == if InSupportedRange(date) then Ok(date) else Err(DateOutOfRange)
  {
    LenientQuarterStart(year, q);
    LenientUnfold(year, q, doq);
  }

  /**
   * LENIENT lands doq - 1 days after the first day of the month 3 * (q - 1)
   * months after January of the year, whatever q and doq are, and it succeeds
   * exactly when that arithmetic fits 64 bits and both the rolled month start
   * and the final date stay in the supported years.
   */
  lemma ResolveLenientRolls(fields: FieldMap)
    requires Progressing(fields)
    ensures Resolve(fields, Lenient).Ok? <==>
      LenientFits(fields[YearField], fields[QuarterOfYearField], fields[DayOfQuarterField])
    ensures var r := Resolve(fields, Lenient);
      var y, q, doq := fields[YearField], fields[QuarterOfYearField], fields[DayOfQuarterField];
      var start := PlusMonths(Date(y, 1, 1), (q - 1) * 3);
      r.Ok? ==> (r.value.Resolved? && start.day == 1 &&
                 start.year * 12 + start.month == y * 12 + 1 + (q - 1) * 3 &&
                 EpochDay(r.value.date) == EpochDay(start) + doq - 1)
  {
    if MIN_YEAR <= fields[YearField] <= MAX_YEAR {
      ResolveUnfold(fields, Lenient);
      LenientRollsFrom(fields[YearField], fields[QuarterOfYearField], fields[DayOfQuarterField]);
    } else {
      ResolveChecksYear(fields, Lenient);
    }
  }

  /**
   * When LENIENT succeeds: the year is supported, 3 * (q - 1) and doq - 1 fit
   * 64 bits, and both the rolled month start and the final date stay in the
   * supported years.
   */
  predicate LenientFits(year: int, q: int, doq: int)
  {
    MIN_YEAR <= year <= MAX_YEAR && IsLong((q - 1) * 3) && IsLong(doq - 1) &&
    var start := PlusMonths(Date(year, 1, 1), (q - 1) * 3);
    InSupportedRange(start) && InSupportedRange(PlusDays(start, doq - 1))
  }

  /** The date-level part of ResolveLenientRolls. */
  lemma LenientRollsFrom(year: int, q: int, doq: int)
    requires MIN_YEAR <= year <= MAX_YEAR && IsLong(q) && IsLong(doq)
    ensures var start := PlusMonths(Date(year, 1, 1), (q - 1) * 3);
      var d := ResolveLenient(year, q, doq);
      (d.Ok? <==> LenientFits(year, q, doq)) &&
      (d.Ok? ==> start.day == 1 && EpochDay(d.value) == EpochDay(start) + doq - 1)
  {
    LenientUnfold(year, q, doq);
    var start := PlusMonths(Date(year, 1, 1), (q - 1) * 3);
    PlusDaysEpochDay(start, doq - 1);
  }

  /** LENIENT's steps: its date when every step fits, and when that happens. */
  lemma LenientUnfold(year: int, q: int, doq: int)
    requires MIN_YEAR <= year <= MAX_YEAR && IsLong(q) && IsLong(doq)
    ensures var start := PlusMonths(Date(year, 1, 1), (q - 1) * 3);
      var r := ResolveLenient(year, q, doq);
      (r.Ok? <==> IsLong((q - 1) * 3) && InSupportedRange(start) && IsLong(doq - 1) &&
                  InSupportedRange(PlusDays(start, doq - 1))) &&
      (r.Ok? ==> r.value == PlusDays(start, doq - 1))
  {
    if IsLong((q - 1) * 3) {
      assert SubtractExact(q, 1) == Ok(q - 1);
      assert MultiplyExact(q - 1, 3) == Ok((q - 1) * 3);
    }
  }

  /** Day-of-quarter 1 resolves to the first day of the quarter under every style. */
  lemma ResolveFirstDay(fields: FieldMap, style: ResolverStyle)
    requires Progressing(fields)
    requires MIN_YEAR <= fields[YearField] <= MAX_YEAR
    requires 1 <= fields[QuarterOfYearField] <= 4 && fields[DayOfQuarterField] == 1
    ensures Resolve(fields, style).Ok? && Resolve(fields, style).value.Resolved?
    ensures Resolve(fields, style).value.date ==
      Date(fields[YearField], FirstMonthOfQuarter(fields[QuarterOfYearField]), 1)
  {
    ResolveSmart(fields);
    ResolveLenientAgreesWithSmart(fields);
  }

  // ------------------------------------------------------------ worked cases

  function QuarterFields(year: int, q: int, doq: int): FieldMap
  {
    map[YearField := year, QuarterOfYearField := q, DayOfQuarterField := doq]
  }

  /** On a map of exactly the three fields, resolution is the style's date with nothing left over. */
  lemma ResolveQuarterFields(y: int, q: int, doq: int, style: ResolverStyle)
    requires y != 0 && q != 0 && MIN_YEAR <= y <= MAX_YEAR && IsLong(q) && IsLong(doq)
    ensures var d := ResolveDate(y, q, doq, style);
      Resolve(QuarterFields(y, q, doq), style) == if d.Ok? then Ok(Resolved(d.value, map[])) else Err(d.error)
  {
    assert QuarterFields(y, q, doq) - {DayOfQuarterField, YearField, QuarterOfYearField} == map[];
  }

  /**
   * In a leap year such as 2016: Q1 day 1 is January 1st, Q2 day 1 is April 1st,
   * and STRICT accepts Q1 day 91 as March 31st.
   */
  lemma ResolveLeapYear(y: int)
    requires y != 0 && MIN_YEAR <= y <= MAX_YEAR && IsLeap(y)
    ensures Resolve(QuarterFields(y, 1, 1), Smart) == Ok(Resolved(Date(y, 1, 1), map[]))
    ensures Resolve(QuarterFields(y, 2, 1), Smart) == Ok(Resolved(Date(y, 4, 1), map[]))
    ensures Resolve(QuarterFields(y, 1, 91), Strict) == Ok(Resolved(Date(y, 3, 31), map[]))
  {
    ResolveQuarterFields(y, 1, 1, Smart);
    CheckedUnfold(false, y, 1, 1);
    ResolveQuarterFields(y, 2, 1, Smart);
    CheckedUnfold(false, y, 2, 1);
    ResolveQuarterFields(y, 1, 91, Strict);
    CheckedUnfold(true, y, 1, 91);
    QuarterLengths(y);
    DayOfYearShift(Date(y, 1, 1), 90, Date(y, 3, 31));
  }

  /**
   * In a common year such as 2015, Q1 has 90 days: STRICT rejects day 91, while
   * SMART (range 1..92) and LENIENT both roll it over to April 1st.
   */
  lemma ResolveCommonYearRollover(y: int)
    requires y != 0 && MIN_YEAR <= y <= MAX_YEAR && !IsLeap(y)
    ensures Resolve(QuarterFields(y, 1, 91), Strict) == Err(InvalidValue(FIELD_NAME, 91))
    ensures Resolve(QuarterFields(y, 1, 91), Smart) == Ok(Resolved(Date(y, 4, 1), map[]))
    ensures Resolve(QuarterFields(y, 1, 91), Lenient) == Ok(Resolved(Date(y, 4, 1), map[]))
  {
    ResolveQuarterFields(y, 1, 91, Strict);
    CheckedUnfold(true, y, 1, 91);
    QuarterLengths(y);
    ResolveQuarterFields(y, 1, 91, Smart);
    CheckedUnfold(false, y, 1, 91);
    DayOfYearShift(Date(y, 1, 1), 90, Date(y, 4, 1));
    ResolveQuarterFields(y, 1, 91, Lenient);
    LenientQuarterStart(y, 1);
  }

  /** Within one year, the date n days later is the one whose day-of-year is n more. */
  lemma DayOfYearShift(d: Date, n: int, e: Date)
    requires Valid(d) && Valid(e) && d.year == e.year
    requires DayOfYear(e) == DayOfYear(d) + n
    ensures PlusDays(d, n) == e
  {
    PlusDaysUnique(d, n, e);
  }

  /** LENIENT fails with an overflow when 3 * (quarter - 1) does not fit 64 bits. */
  lemma ResolveLenientOverflow(fields: FieldMap)
    requires Progressing(fields)
    requires MIN_YEAR <= fields[YearField] <= MAX_YEAR
    requires !IsLong((fields[QuarterOfYearField] - 1) * 3)
    ensures Resolve(fields, Lenient) == Err(ArithmeticOverflow)
  {
  }

  /**
   * LENIENT rolls quarter 5 into the next year and day 0 back into the previous
   * quarter, where SMART and STRICT reject them.
   */
  lemma ResolveLenientRollover(y: int)
    requires y != 0 && MIN_YEAR <= y < MAX_YEAR
    ensures Resolve(QuarterFields(y, 5, 1), Lenient) == Ok(Resolved(Date(y + 1, 1, 1), map[]))
    ensures Resolve(QuarterFields(y, 5, 1), Smart) == Err(InvalidValue("QuarterOfYear", 5))
    ensures Resolve(QuarterFields(y, 2, 0), Lenient) == Ok(Resolved(Date(y, 3, 31), map[]))
    ensures Resolve(QuarterFields(y, 2, 0), Strict) == Err(InvalidValue(FIELD_NAME, 0))
  {
    ResolveQuarterFields(y, 5, 1, Lenient);
    assert PlusMonths(Date(y, 1, 1), 12) == Date(y + 1, 1, 1);
    ResolveQuarterFields(y, 5, 1, Smart);
    CheckedUnfold(false, y, 5, 1);
    ResolveQuarterFields(y, 2, 0, Lenient);
    LenientQuarterStart(y, 2);
    assert PlusDays(Date(y, 4, 1), -1) == Date(y, 3, 31);
    ResolveQuarterFields(y, 2, 0, Strict);
    CheckedUnfold(true, y, 2, 0);
  }

  /** Year 0 is loosely null: the step makes no progress even though 0 is a proleptic year. */
  lemma ResolveYearZero(style: ResolverStyle)
    ensures Resolve(QuarterFields(0, 1, 1), style) == Ok(NoProgress)
  {
  }
}
