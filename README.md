# Day-of-quarter resolution, zone text, ISO eras and integer helpers

This project is a Dafny model of four small parts of the Celest date/time library (a PHP port of
the JSR-310 design):

- **DayOfQuarter** (`DayOfQuarter.dfy`) models the day-of-quarter field. It covers the default range
  (1, 90 to 92), the range refined by the quarter and the leap year, and the `QUARTER_DAYS` table.
  It covers extraction from a date (`GetFrom`) and adjustment of a date (`AdjustInto`). It also
  covers the resolution step, which turns `{YEAR, QUARTER_OF_YEAR, DayOfQuarter}` into a date under
  the STRICT, SMART and LENIENT resolver styles.
  - The field map is passed by value in the source, so removing the three keys only changes the
    function's own copy. `Resolve` therefore returns the date together with that copy, the
    residual map.
  - A missing YEAR or QUARTER_OF_YEAR is tested with a loose `== null`, so the value 0 also counts as
    missing. The model keeps this quirk (`LooselyNull`, `ResolveYearZero`).
  - SMART checks a day-of-quarter outside 1..90 against the wide range 1..92, not against the
    quarter's own length. A short quarter therefore rolls over into the next one under SMART.
- **Calendar** (`Calendar.dfy`) is a minimal proleptic Gregorian date that stands in for
  `LocalDate`, which is not part of this model. A date is year, month and day. Leap years follow
  section 3.2.1 of ISO 8601:2004. `PlusDays` steps a month at a time. It is proved to shift the
  epoch day by exactly the number of days added. The epoch day is injective, so `PlusDays` is the
  only date with that property. `PlusMonths` clamps the day of month, and `WithDayOfYear` sets the
  day-of-year.
- **ValueRange** (`ValueRange.dfy`) holds the checks that the fields call: `CheckValidValue` and
  `CheckValidIntValue`.
- **ZoneText** (`ZoneText.dfy`) models the zone-text printer/parser. It covers the constructor's
  preferred-zone list and the choice of a STD, DST or GENERIC display name. It covers `Format`, which
  appends to a buffer; the by-reference buffer becomes an in/out parameter. It also covers
  `GetTree`, which keeps a per-locale cache validated by the count of region ids. On a rebuild the
  tree is filled in two passes, and the preferred zones' pass overwrites the first. The prefix tree
  is modelled as a map from text to zone id where a later write wins.
  - The text providers, the style's name index and `ZoneName::toZid` are function-valued inputs.
  - The daylight-saving answer is a boolean input.
  - The class declares no cache properties: they appear only in commented-out lines
    (ZoneTextPrinterParser.php:97-98). Line 149 stores the tree itself, while line 119 reads it
    back with `->get()` as if it were a soft reference. The model follows the evident design of
    these lines: two per-locale caches, one per case sensitivity, each entry holding the region
    count and a tree that may have been reclaimed.
  - A reclaimed soft reference is an absent tree.
  - The two caches become an explicit `TreeCache` object passed to `GetTree`.
  - `self::$preferredZones` is read as the instance's preferred list, with `contains` as list
    membership.
- **IsoEra** (`IsoEra.dfy`) models the two ISO eras as a closed datatype: `Of`, `GetValue`,
  `ToString`, and the year-of-era table of the era's documentation.
- **Integer** (`Integer.dfy`) holds the 32-bit bounds, the three-way `Compare`, and decimal
  `ToString` and `ParseInt`, with the round trip between them.

`Results.dfy` holds the `Option` and `Result` types and the library's exceptions as error values.

SMART checks a day-of-quarter outside 1..90 against 1..92, so Q1 day 91 of a common year such as
2015 resolves to April 1st (`ResolveCommonYearRollover`).

The year check calls `ChronoField::YEAR()->checkValidIntValue`. `ChronoField` is not part of this
model. Its YEAR range is taken to be -999,999,999..999,999,999, as in JSR-310. `LocalDate` uses the
same bounds for the dates it accepts. `YearRangeFitsInt` states that this range fits a 32-bit int.

## Model

| member | source | states |
|---|---|---|
| `DayOfQuarter.Range` | src/Celest/Temporal/Misc/DayOfQuarter.php:31-34 | the default range has minimum 1 and maximum 90..92, and admits exactly 1..92 |
| `DayOfQuarter.QuarterLengths` | src/Celest/Temporal/Misc/DayOfQuarter.php:49-55 | Q1 has 91 days in a leap year and 90 otherwise, Q2 has 91, Q3 and Q4 have 92 (each the sum of its months' lengths) |
| `DayOfQuarter.RangeForQuarter` | src/Celest/Temporal/Misc/DayOfQuarter.php:48-57 | for quarters 1..4 the range is 1..the quarter's length in that year; any other quarter value falls through to the default range |
| `DayOfQuarter.RangeRefinedBy` | src/Celest/Temporal/Misc/DayOfQuarter.php:42-58 | an unsupported temporal fails with UnsupportedTemporalType; a date gets 1..the length of its own quarter |
| `DayOfQuarter.QuarterDaysTable` | src/Celest/Temporal/Misc/DayOfQuarter.php:117 | entry q-1 (+4 in a leap year) of QUARTER_DAYS is the total length of the months before quarter q |
| `DayOfQuarter.GetFrom` | src/Celest/Temporal/Misc/DayOfQuarter.php:60-70 | unsupported fails; otherwise day-of-year minus the days before the date's quarter, which lies in 1..the quarter's length |
| `DayOfQuarter.QuarterBounds` | src/Celest/Temporal/Misc/DayOfQuarter.php:66-69 | the QUARTER_DAYS entry a date's month selects is the number of days before its quarter, and its day-of-year lies inside that quarter |
| `DayOfQuarter.InQuarter` | src/Celest/Temporal/Misc/DayOfQuarter.php:66-69 | a date that is the k-th day after its quarter's start lies in that quarter and reads back k |
| `DayOfQuarter.AdjustInto` | src/Celest/Temporal/Misc/DayOfQuarter.php:72-78 | fails exactly for values outside 1..92 (or an unsupported temporal); otherwise keeps the year and shifts day-of-year by newValue minus the current value |
| `DayOfQuarter.AdjustIntoGetFrom` | src/Celest/Temporal/Misc/DayOfQuarter.php:72-78 | adjusting to a value within the current quarter's length reads back that value |
| `DayOfQuarter.SubtractExact` | src/Celest/Temporal/Misc/DayOfQuarter.php:92-93 | the difference when it fits 64 bits, ArithmeticOverflow otherwise |
| `DayOfQuarter.MultiplyExact` | src/Celest/Temporal/Misc/DayOfQuarter.php:92 | the product when it fits 64 bits, ArithmeticOverflow otherwise |
| `DayOfQuarter.YearRangeFitsInt` | src/Celest/Temporal/Misc/DayOfQuarter.php:88 | every year the YEAR range accepts fits a 32-bit int |
| `DayOfQuarter.ResolveLenient` | src/Celest/Temporal/Misc/DayOfQuarter.php:91-93 | a LENIENT result is a valid date in the supported years; 3*(quarter-1) outside 64 bits fails with an overflow |
| `DayOfQuarter.ResolveChecked` | src/Celest/Temporal/Misc/DayOfQuarter.php:94-105 | STRICT/SMART results are valid dates and only arise for quarters 1..4 |
| `DayOfQuarter.ResolveDate` | src/Celest/Temporal/Misc/DayOfQuarter.php:91-105 | the style's date is a valid date |
| `DayOfQuarter.Resolve` | src/Celest/Temporal/Misc/DayOfQuarter.php:80-110 | no progress exactly when YEAR or QUARTER_OF_YEAR is absent or 0; on success the year fits 32 bits and the residual map is the input minus exactly the three consumed keys, other values untouched |
| `DayOfQuarter.ResolveUnfold` | src/Celest/Temporal/Misc/DayOfQuarter.php:88-109 | past the missing-field test and the year check, resolution succeeds exactly when the style's date does, and returns it |
| `DayOfQuarter.ResolveChecksYear` | src/Celest/Temporal/Misc/DayOfQuarter.php:88 | a year outside the YEAR range fails under every style |
| `DayOfQuarter.QuarterStart` | src/Celest/Temporal/Misc/DayOfQuarter.php:96 | the first day of quarter q is valid, lies in quarter q, and leaves room for 92 days in the year |
| `DayOfQuarter.CheckedUnfold` | src/Celest/Temporal/Misc/DayOfQuarter.php:94-105 | a quarter outside 1..4 fails naming QuarterOfYear; otherwise the date is doq - 1 days after the quarter's first day when doq is within the style's range (the exact quarter length for STRICT, 1..92 for SMART), and an error naming the field otherwise |
| `DayOfQuarter.CheckedStrict` | src/Celest/Temporal/Misc/DayOfQuarter.php:95-104 | STRICT's date exists exactly for quarters 1..4 and days 1..the quarter's length, and is that day of that quarter |
| `DayOfQuarter.CheckedSmart` | src/Celest/Temporal/Misc/DayOfQuarter.php:95-104 | SMART's date exists exactly for quarters 1..4 and days 1..92, and is that many days into the quarter in the same year |
| `DayOfQuarter.ResolveStrict` | src/Celest/Temporal/Misc/DayOfQuarter.php:95-109 | STRICT succeeds if and only if the quarter is 1..4 and the day is within the quarter's exact length; the date is in that year and quarter and its day-of-quarter is the given one |
| `DayOfQuarter.ResolveSmart` | src/Celest/Temporal/Misc/DayOfQuarter.php:95-109 | SMART succeeds if and only if the quarter is 1..4 and the day is 1..92; the date stays in the year, the day-of-year is the quarter's start plus the day, and it reads back the day when it fits the quarter |
| `DayOfQuarter.LenientQuarterStart` | src/Celest/Temporal/Misc/DayOfQuarter.php:92 | January 1st plus 3*(q-1) months is the first day of quarter q |
| `DayOfQuarter.ResolveLenientAgreesWithSmart` | src/Celest/Temporal/Misc/DayOfQuarter.php:91-109 | wherever SMART resolves, LENIENT gives the same date and residual |
| `DayOfQuarter.LenientFromQuarterStart` | src/Celest/Temporal/Misc/DayOfQuarter.php:91-93 | for quarters 1..4 LENIENT counts doq - 1 days from the quarter's first day, failing only when that leaves the supported years |
| `DayOfQuarter.LenientAgreesWithChecked` | src/Celest/Temporal/Misc/DayOfQuarter.php:91-105 | wherever SMART's checked path yields a date, LENIENT's arithmetic yields the same date |
| `DayOfQuarter.ResolveLenientRolls` | src/Celest/Temporal/Misc/DayOfQuarter.php:91-93 | for any q and doq, LENIENT succeeds if and only if the year is supported, 3*(q-1) and doq-1 fit 64 bits, and both the rolled month start and the final date stay in the supported years (`LenientFits`); its date is then doq-1 days (by epoch day) after the first of the month 3*(q-1) months after January |
| `DayOfQuarter.LenientRollsFrom` | src/Celest/Temporal/Misc/DayOfQuarter.php:91-93 | the same at the level of LENIENT's arithmetic on a validated year |
| `DayOfQuarter.LenientUnfold` | src/Celest/Temporal/Misc/DayOfQuarter.php:91-93 | LENIENT's date is doq-1 days after January 1st plus 3*(q-1) months, and it exists exactly when every step fits |
| `DayOfQuarter.ResolveLenientOverflow` | src/Celest/Temporal/Misc/DayOfQuarter.php:92 | LENIENT fails with ArithmeticOverflow when 3*(quarter-1) leaves 64 bits |
| `DayOfQuarter.ResolveFirstDay` | src/Celest/Temporal/Misc/DayOfQuarter.php:91-109 | day-of-quarter 1 gives the first day of the quarter under every style |
| `DayOfQuarter.ResolveLeapYear` | src/Celest/Temporal/Misc/DayOfQuarter.php:91-109 | in any leap year (2016, say) Q1 day 1 is January 1st, Q2 day 1 is April 1st, and STRICT accepts Q1 day 91 as March 31st, consuming all three fields |
| `DayOfQuarter.ResolveCommonYearRollover` | src/Celest/Temporal/Misc/DayOfQuarter.php:91-104 | in any common year (2015, say) Q1 day 91: STRICT fails naming the field and the value, SMART and LENIENT both give April 1st |
| `DayOfQuarter.ResolveLenientRollover` | src/Celest/Temporal/Misc/DayOfQuarter.php:91-103 | in any year, LENIENT rolls quarter 5 into January 1st of the next year and Q2 day 0 into March 31st; SMART rejects quarter 5 and STRICT rejects day 0 |
| `DayOfQuarter.ResolveYearZero` | src/Celest/Temporal/Misc/DayOfQuarter.php:84-86 | year 0 counts as missing: no progress under every style |
| `Calendar.DayOfYear` | src/Celest/Temporal/Misc/DayOfQuarter.php:66 | the day-of-year lies inside the date's month's span of the year, within 1..the year's length |
| `Calendar.PlusDays` | src/Celest/Temporal/Misc/DayOfQuarter.php:109 | adding days to a valid date gives a valid date |
| `Calendar.PlusDaysEpochDay` | src/Celest/Temporal/Misc/DayOfQuarter.php:109 | adding n days moves the epoch day by exactly n |
| `Calendar.PlusDaysUnique` | src/Celest/Temporal/Misc/DayOfQuarter.php:109 | the result of adding n days is the only valid date n epoch days later |
| `Calendar.EpochDayInjective` | src/Celest/Temporal/Misc/DayOfQuarter.php:109 | valid dates with the same epoch day are the same date |
| `Calendar.DayOfYearInjective` | src/Celest/Temporal/Misc/DayOfQuarter.php:66 | within one year, valid dates with the same day-of-year are the same date |
| `Calendar.PlusDaysWithinYear` | src/Celest/Temporal/Misc/DayOfQuarter.php:109 | days that stay inside the year keep the year and add to the day-of-year |
| `Calendar.PlusMonths` | src/Celest/Temporal/Misc/DayOfQuarter.php:92 | the month count moves by exactly the months added; the day is kept, clamped to the target month's length |
| `Calendar.WithDayOfYear` | src/Celest/Temporal/Misc/DayOfQuarter.php:77 | succeeds exactly for 1..the year's length, giving the date of that day-of-year in the same year |
| `ZoneText.CollectIds` | src/Celest/Format/Builder/ZoneTextPrinterParser.php:44-47 | the ids of the given zones, in input order |
| `ZoneText.ZoneTextPrinterParser.constructor` | src/Celest/Format/Builder/ZoneTextPrinterParser.php:39-49 | a null or empty preferred list leaves the preferred zones unset; otherwise they are the zones' ids in input order |
| `ZoneText.Suffix` | src/Celest/Format/Builder/ZoneTextPrinterParser.php:63-69 | STD reads key suffix 'g', DST 'd', GENERIC 's' |
| `ZoneText.DistinctNameKeys` | src/Celest/Format/Builder/ZoneTextPrinterParser.php:63-69 | the three kinds of name are read from three different keys |
| `ZoneText.ZoneTextPrinterParser.GetDisplayName` | src/Celest/Format/Builder/ZoneTextPrinterParser.php:55-70 | NARROW gives no name whatever the id and type; otherwise the provider's entry under style index + suffix, none when the key is absent |
| `ZoneText.ChosenType` | src/Celest/Format/Builder/ZoneTextPrinterParser.php:83-86 | DST or STD by the daylight answer when instant-seconds is supported, GENERIC otherwise |
| `ZoneText.ZoneTextPrinterParser.Format` | src/Celest/Format/Builder/ZoneTextPrinterParser.php:72-94 | no zone: false and the buffer unchanged; otherwise true and exactly one text appended: the bare id for an offset or NARROW, else the chosen display name, falling back to the id |
| `ZoneText.NameStartPositions` | src/Celest/Format/Builder/ZoneTextPrinterParser.php:130 | the names a style reads are never the zone id at position 0: FULL reads positions 1, 3, 5, … and the other styles 2, 4, 6, … |
| `ZoneText.AddNamesAt` | src/Celest/Format/Builder/ZoneTextPrinterParser.php:130-133 | the inner loop adds exactly the names at every second position from the start, each with the same zone id |
| `ZoneText.StepAt` | src/Celest/Format/Builder/ZoneTextPrinterParser.php:123-134 | one record changes a text exactly when the pass writes it for that record |
| `ZoneText.PassKeys` | src/Celest/Format/Builder/ZoneTextPrinterParser.php:123-134 | after a pass a text is present exactly when it was before or some record wrote it |
| `ZoneText.PassUnwritten` | src/Celest/Format/Builder/ZoneTextPrinterParser.php:123-134 | a text no record writes keeps its id |
| `ZoneText.PassLastWriter` | src/Celest/Format/Builder/ZoneTextPrinterParser.php:138-148 | later write wins: a text ends with the id its last writing record gives |
| `ZoneText.PassUniform` | src/Celest/Format/Builder/ZoneTextPrinterParser.php:123-134 | when every writer of a text agrees on an id, the pass ends with that id |
| `ZoneText.RebuildKeys` | src/Celest/Format/Builder/ZoneTextPrinterParser.php:123-134 | the rebuilt tree holds exactly the ids and names of records whose id is a known region; others are skipped |
| `ZoneText.RebuildPreferredWins` | src/Celest/Format/Builder/ZoneTextPrinterParser.php:137-148 | a name of a preferred, known zone looks up to that zone whatever other zones share it, unless a later preferred zone has it too |
| `ZoneText.RebuildBulkValue` | src/Celest/Format/Builder/ZoneTextPrinterParser.php:123-134 | without a preferred writer, a text maps to the id (toZid for names) its bulk writers agree on |
| `ZoneText.RebuildIdMapsToItself` | src/Celest/Format/Builder/ZoneTextPrinterParser.php:128 | a known region id that is nobody's display name maps to itself |
| `ZoneText.ZoneTextPrinterParser.BuildTree` | src/Celest/Format/Builder/ZoneTextPrinterParser.php:121-148 | the two loops build exactly the bulk pass followed by the preferred pass |
| `ZoneText.ZoneTextPrinterParser.GetTree` | src/Celest/Format/Builder/ZoneTextPrinterParser.php:100-152 | NARROW defers to the parent and touches no cache; otherwise it rebuilds only when the entry is missing, its count differs from the region-id count or its tree was reclaimed, storing the new tree with the current count; else it returns the cached tree with the cache unchanged; the other case-sensitivity's cache is untouched |
| `IsoEra.Of` | src/Php/Time/Chrono/IsoEra.php:164-174 | 0 gives BCE, 1 gives CE, every other value fails with InvalidEra; getValue of the result is the input |
| `IsoEra.Era.GetValue` | src/Php/Time/Chrono/IsoEra.php:184-187 | 0 for BCE and 1 for CE |
| `IsoEra.OfGetValue` | src/Php/Time/Chrono/IsoEra.php:164-187 | of(getValue(e)) is e |
| `IsoEra.Era.ToString` | src/Php/Time/Chrono/IsoEra.php:245-248 | "BCE" when the value is 0, "CE" otherwise |
| `IsoEra.ProlepticYear` | src/Php/Time/Chrono/IsoEra.php:73-99 | CE year-of-era y is proleptic year y; BCE year-of-era y is proleptic year 1 - y |
| `IsoEra.EraOf` | src/Php/Time/Chrono/IsoEra.php:74-75 | CE covers exactly the proleptic years from 1 on |
| `IsoEra.YearOfEra` | src/Php/Time/Chrono/IsoEra.php:73-99 | a year-of-era is at least 1 |
| `IsoEra.EraYearRoundTrip` | src/Php/Time/Chrono/IsoEra.php:73-99 | every proleptic year is recovered from its era and year-of-era |
| `IsoEra.YearEraRoundTrip` | src/Php/Time/Chrono/IsoEra.php:73-99 | every era and year-of-era from 1 is recovered from its proleptic year |
| `IsoEra.DocumentedTable` | src/Php/Time/Chrono/IsoEra.php:86-97 | the four documented rows: 2 CE = 2, 1 CE = 1, 1 BCE = 0, 2 BCE = -1 |
| `Integer.Int32Bounds` | src/Celest/Helper/Integer.php:8-9 | MIN_VALUE is -2^31 and MAX_VALUE is 2^31 - 1 |
| `Integer.Compare` | src/Celest/Helper/Integer.php:18-21 | only -1, 0 or 1; 0 if and only if equal, -1 if and only if less, 1 if and only if greater |
| `Integer.CompareAntisymmetric` | src/Celest/Helper/Integer.php:18-21 | compare(x, y) is -compare(y, x) |
| `Integer.CompareTransitive` | src/Celest/Helper/Integer.php:18-21 | less-than by compare is transitive |
| `Integer.ToString` | src/Celest/Helper/Integer.php:36-39 | a non-empty string that starts with '-' exactly for negative values |
| `Integer.Digits` | src/Celest/Helper/Integer.php:36-39 | decimal digits only, no leading zero for a non-zero value |
| `Integer.ParseInt` | src/Celest/Helper/Integer.php:27-30 | a leading '-' gives a value at most 0, otherwise at least 0; text that starts with neither a digit nor a sign gives 0; a string of digits only gives its decimal value |
| `Integer.ParseIntIgnoresSuffix` | src/Celest/Helper/Integer.php:27-30 | parsing stops at the first character that continues neither the digits nor a decimal or exponent part: digits followed by text starting with anything other than a digit, '.', 'e' or 'E' parse as the digits alone |
| `Integer.ParseToString` | src/Celest/Helper/Integer.php:27-39 | parsing the decimal text of any integer gives it back |
| `Integer.ToStringInjective` | src/Celest/Helper/Integer.php:36-39 | distinct integers print differently |

## Left out

- `DayOfQuarter.GetFrom`, `DayOfQuarter.RangeRefinedBy`, `DayOfQuarter.AdjustInto`: `isSupportedBy` (with `isIso`) is a variant of the temporal type. A temporal is either an ISO date carrying all needed fields or `NotSupported`. `IsoFields::ensureIso` in `resolve` is a foreign call and is not modelled.
- `DayOfQuarter.Resolve`: it requires the day-of-quarter key to be present, because the resolution engine only asks a field that is in the map to resolve itself. The partial temporal argument is dropped, since only `ensureIso` reads it. Field keys are a datatype instead of the fields' string names.
- `DayOfQuarter.ResolveLenient`: `LocalDate` is not part of this model. A LENIENT date outside the supported years fails with one error kind, `DateOutOfRange`. The source would raise either a range error or an arithmetic-overflow error from `LocalDate`, depending on which step leaves the range, and the model does not tell these apart.
- The constant members of the field (`getBaseUnit`, `getRangeUnit`, `isDateBased`, `isTimeBased`, `__toString`, `getDisplayName(Locale)`) are left out. They return constants.
- `ChronoField`, `IsoFields`, `ValueRange`, `Math` and `LocalDate` are not part of this model. Their behaviour is restated in `Calendar.dfy`, `ValueRange.dfy` and `DayOfQuarter.dfy` only as far as the day-of-quarter field uses it.
- `ZoneText.ZoneTextPrinterParser.GetDisplayName`, `ZoneText.ZoneTextPrinterParser.GetTree`: `DateTimeTextProvider`, `TimeZoneNameUtility`, `TextStyle::zoneNameStyleIndex`, `ZoneName::toZid` and `ZoneRulesProvider` are function-valued inputs (`Providers`) or parameters (the region-id set). They carry no behaviour of their own.
- `ZoneText.ZoneTextPrinterParser.Format`: the daylight-saving answer (`getRules()->isDaylightSavings(Instant::from(...))`) is a boolean of the print context.
- `ZoneText.ZoneTextPrinterParser.GetTree`: the parent's `getTree` for NARROW is not part of this model and is returned as the marker `ParentTree`. The prefix tree's internals (longest-prefix matching, case-insensitive comparison) are not modelled, so the case-sensitive and case-insensitive trees hold the same mapping. Parsing itself belongs to the parent class and is not modelled. So no format-then-parse round trip is stated, and the name provider used for printing is independent of the zone strings used for parsing.
- `ZoneText.ZoneTextPrinterParser.constructor`: the parent constructor's query and description are not modelled.
- Reclaiming a soft reference is modelled only as a cache entry whose tree is absent. Thread safety of the tree cache is not modelled, because the model is single-threaded.
- The `EraDefaults` delegations of the era (`isSupported`, `range`, `get`, `getLong`, `query`, `adjustInto`, `getDisplayName`) are left out. They are foreign calls, and they do not return the delegate's result.
- `Integer.ParseInt`: only the optional sign and the leading run of digits of PHP's `(int)` cast are modelled. Leading whitespace, float-like strings and saturation at the 64-bit bounds are left out. Since PHP 7.1 the cast also reads a decimal or exponent part (`(int)"5e3"` is 5000), where the model stops at the digits and gives 5. `Integer.ParseIntIgnoresSuffix` therefore excludes suffixes starting with '.', 'e' or 'E'. The round trip is stated for the canonical decimal text.
- Zone rules, fixed-offset zone rules and their tests are not part of this model. The test unit `NINETY_MINS` returns constants and throws, and it is not modelled either.
