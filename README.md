# MoonCalendar lunar engine in Dafny

This project models the calculation core of the `MoonPhase` class in MoonCalendar. The class takes a civil date and computes three things:

- the Julian day number at 12h UT;
- the moon's age in days since the last new moon;
- the name of the lunar phase.

The model is split into four modules, one per piece of that class:

- `JulianDate` (julian_date.dfy) models the Julian-day block of `MoonPosit`. The code shifts the year so that March is month 0. It then adds the year part `k1`, the month part `k2`, the day and 59. It subtracts the Gregorian correction `k3` only when the raw count is above 2299160. Every `Math.Floor` of a decimal product is an integer division here. A lemma proves each one equal to the floor of the source's own decimal expression over exact reals. The module also defines the Julian and Gregorian calendars (`DaysInMonth`, `NextDay`). With them, the lemmas prove that the day number with the intended correction (`JulianDay`) advances by exactly one per calendar day, on both sides of the 1582 cutover. The day number as the code writes it (`JulianDayAsWritten`) does not: see Findings.
- `LunarCycle` (lunar_cycle.dfy) models `Normalize`, the fractional part of a real. It also models the four cycle fractions that `MoonPosit` passes through it and the moon's age `ag`.
- `PhaseTable` (phase_table.dfy) models `MoonPhaseCalc`, the eight-threshold classifier from age to phase label. It also gives a table-driven definition of the same classifier and proves the two equal.
- `MoonPhase` (moon_phase.dfy) models `Create` with its date check. It also models `MoonPosit` as a method. The method runs the source's steps in order: shift, `k1`, `k2`, `k3`, correction, age and label. It is proved against the functions above.

Points where the model keeps the source's own behaviour:

- The labels are the source's own strings, typos and mixed languages included: "Новая Луна", "Waxing cresent", "Wanning gibbous" and so on.
- The correction is written `yy / 100.0`, a real division, where the standard civil-to-Julian-day algorithm (Meeus, *Astronomical Algorithms*, chapter 7) floors the century first. `JulianDayAsWritten` keeps the line as written; see Findings for why it is a defect.
- `Normalize` adds 1 when `v - floor(v)` is negative. The branch looks meant for negative arguments, that is dates before the epoch, but it is unreachable: `v - floor(v)` is never negative. `LunarCycle.NormalizeIsFloorRemainder` proves this.

## Model

| member | source | states |
|---|---|---|
| JulianDate.ShiftedYear | MoonCalendar/MoonPhase.cs:37 | For a month in 1..12, `yy` is `year - 1` exactly for January and February, and `year` otherwise. |
| JulianDate.ShiftedYearMatchesSource | MoonCalendar/MoonPhase.cs:37 | The integer form of `yy` equals `year - floor((12.0 - month) / 10.0)`. |
| JulianDate.ShiftedMonth | MoonCalendar/MoonPhase.cs:38-42 | `mm` is in 0..11 and equals `(month + 9) mod 12`. It is 0 exactly for March and 11 exactly for February. |
| JulianDate.YearDays | MoonCalendar/MoonPhase.cs:43 | `k1` counts the `yy + 4712` Julian years before shifted year `yy`: 365 days each plus one leap day per four years. |
| JulianDate.YearDaysAroundReform | MoonCalendar/MoonPhase.cs:43 | Shifted year 1581 starts at `k1` = 2298518 and 1582 at 2298883; earlier years start no later and years from 1583 on start at 2299248 or later. |
| JulianDate.YearDaysMatchesSource | MoonCalendar/MoonPhase.cs:43 | `(1461 * (yy + 4712)) / 4` equals `floor(365.25 * (yy + 4712.0))` for every `yy`. |
| JulianDate.YearDaysStep | MoonCalendar/MoonPhase.cs:43 | `k1` grows by 366 from one shifted year to the next when that year ends in a Julian leap February, and by 365 otherwise. |
| JulianDate.MonthDaysMatchesSource | MoonCalendar/MoonPhase.cs:44 | `(306 * mm + 5) / 10` equals `floor(30.6 * mm + 0.5)` for every `mm`. |
| JulianDate.MonthDays | MoonCalendar/MoonPhase.cs:44 | For `mm` = 0..11, `k2` is the first day of the month counted from 1 March: 0, 31, 61, 92, 122, 153, 184, 214, 245, 275, 306, 337. |
| JulianDate.MonthDaysStep | MoonCalendar/MoonPhase.cs:44 | Consecutive month starts in `k2` are exactly one month length apart, from March through January. |
| JulianDate.CorrectionAsWrittenMatchesSource | MoonCalendar/MoonPhase.cs:45 | `(3 * (yy + 4900)) / 400 - 38` equals the source's `floor((yy / 100.0 + 49.0) * 0.75) - 38`, with its real division. |
| JulianDate.Correction | MoonCalendar/MoonPhase.cs:45 | The intended correction equals `yy / 100 - yy / 400 - 2`, the count of leap days the Gregorian calendar drops, which is 10 in the sixteenth century. |
| JulianDate.CorrectionMatchesStandard | MoonCalendar/MoonPhase.cs:45 | The intended correction equals the standard `floor(floor(yy / 100 + 49) * 0.75) - 38`. |
| JulianDate.CorrectionStep | MoonCalendar/MoonPhase.cs:45 | The intended correction grows by one exactly at century years not divisible by 400, and stays the same at every other year. |
| JulianDate.CorrectionAsWritten | MoonCalendar/MoonPhase.cs:45 | The correction as written is the intended one or one more. |
| JulianDate.CorrectionAsWrittenExcess | MoonCalendar/MoonPhase.cs:45 | The correction as written is one too large exactly when `yy / 100` is 0 mod 4 and `yy mod 100` is at least 34, or `yy / 100` is 1 mod 4 and `yy mod 100` is at least 67: shifted years 1634-1699, 1767-1799, 2034-2099, 2167-2199 and so on every 400 years. |
| JulianDate.RawDay | MoonCalendar/MoonPhase.cs:46 | For a day of the month in 1..31, the raw count is at most the cutover 2299160 exactly when the date is on or before 4 October 1582, so the test at line 47 splits Julian from Gregorian dates at the reform. |
| JulianDate.JulianDay | MoonCalendar/MoonPhase.cs:37-50 | With the intended correction, a date with a day in 1..31 keeps its raw count exactly when it is on or before 4 October 1582. After the cutover the count loses `yy / 100 - yy / 400 - 2` days, the century leap days the Gregorian calendar drops. |
| JulianDate.JulianDayAsWritten | MoonCalendar/MoonPhase.cs:37-50 | The code as written gives the intended day number, minus one exactly for raw counts above the cutover in the shifted years where the written correction is too large. |
| JulianDate.RawDayNext | MoonCalendar/MoonPhase.cs:37-46 | The raw count before the correction advances by one per calendar day. The exception is the step from the end of February to 1 March, where it advances by the Julian leap-day difference. |
| JulianDate.GregorianFebruaryStep | MoonCalendar/MoonPhase.cs:43-50 | Across the end of February the raw step and the step of the intended correction always add up to exactly one day, in all four leap-year cases. |
| JulianDate.JulianDayNextGregorianDay | MoonCalendar/MoonPhase.cs:37-50 | Above the cutover, with the intended correction, the day after any valid Gregorian date has a day number exactly one higher. |
| JulianDate.JulianDayNextJulianDay | MoonCalendar/MoonPhase.cs:37-50 | Up to the cutover, the day after any valid Julian-calendar date has a day number exactly one higher, with no correction applied. |
| JulianDate.AsWrittenAtMostOneDayEarly | MoonCalendar/MoonPhase.cs:45-50 | The day number as written equals the intended one or is one day less. |
| JulianDate.CutoverDays | MoonCalendar/MoonPhase.cs:37-50 | 1582-10-04 gives the raw value 2299160 and is not corrected. 1582-10-15 gives 2299161 after a correction of 10. |
| JulianDate.EpochDay | MoonCalendar/MoonPhase.cs:37-50 | 2000-01-06 is day 2451550. |
| JulianDate.ReferenceDaysAsWritten | MoonCalendar/MoonPhase.cs:37-50 | The code as written also gives 2299160, 2299161 and 2451550 for those three dates. |
| JulianDate.AsWrittenRepeatsDay | MoonCalendar/MoonPhase.cs:45-50 | As written, 2034-02-28 and 2034-03-01 both get day 2464022, while the intended numbers are consecutive. 2050-01-01 gets 2469807 instead of 2469808. |
| JulianDate.AsWrittenEarlyFrom1634 | MoonCalendar/MoonPhase.cs:45-50 | As written, the correction already rises from 10 to 11 at shifted year 1634 while the intended one stays 10, so 1634-02-28 and 1634-03-01 share a day number and 1650-06-01 is one day early. |
| JulianDate.JulianDayFitsInt32 | MoonCalendar/MoonPhase.cs:33-50 | For years 1..9999, `k1` and both day numbers are positive and below 2^31, so the source's `int` locals do not overflow. |
| LunarCycle.Normalize | MoonCalendar/MoonPhase.cs:124-132 | The result is in [0, 1), and `v` minus the result is a whole number. |
| LunarCycle.NormalizeIsFloorRemainder | MoonCalendar/MoonPhase.cs:126-130 | `v - floor(v)` is never negative, so the add-one branch is never taken and the result is `v - floor(v)`. |
| LunarCycle.NormalizeUnique | MoonCalendar/MoonPhase.cs:124-132 | Any value in [0, 1) that differs from `v` by a whole number is `Normalize(v)`. |
| LunarCycle.NormalizePeriodic | MoonCalendar/MoonPhase.cs:124-132 | Adding a whole number to the argument does not change the result. |
| LunarCycle.NormalizeFixesUnitInterval | MoonCalendar/MoonPhase.cs:124-132 | Values already in [0, 1) are returned unchanged. |
| LunarCycle.NormalizeStep | MoonCalendar/MoonPhase.cs:124-132 | Adding a step in [0, 1) advances the result by that step, minus 1 when it passes 1. |
| LunarCycle.CycleFraction | MoonCalendar/MoonPhase.cs:52-64 | The position of a day within a cycle of positive period is in [0, 1). |
| LunarCycle.FractionsInUnitInterval | MoonCalendar/MoonPhase.cs:52-64 | The synodic, anomalistic, draconic and tropical fractions (`ip`, `dp`, `np`, `rp` before scaling) are in [0, 1). The mean longitude `360 * rp` is in [0, 360). |
| LunarCycle.Age | MoonCalendar/MoonPhase.cs:52-53 | For every integer day number, the age is at least 0 and below 29.53. |
| LunarCycle.AgeNextDay | MoonCalendar/MoonPhase.cs:52-53 | From one day to the next, the age grows by 29.53 / 29.530588853, or grows by that and wraps back by 29.53. |
| LunarCycle.AgeAroundEpoch | MoonCalendar/MoonPhase.cs:52-53 | Day 2451550 has age between 29.43 and 29.431. Day 2451551 has age between 0.8999 and 0.9. |
| PhaseTable.PhaseOf | MoonCalendar/MoonPhase.cs:80-121 | The cascade of strict `<` tests returns, for an age in bucket i, bucket i's phase; ages at or past the last threshold fall through to the new moon. |
| PhaseTable.Label | MoonCalendar/MoonPhase.cs:82-120 | Every phase is returned as one of the eight source strings, and only the new moon as "Новая Луна". |
| PhaseTable.MoonPhaseCalc | MoonCalendar/MoonPhase.cs:77-122 | Every age gets one of the eight labels. The label is "Новая Луна" exactly when the age is below 1.84566 or at least 27.68493. |
| PhaseTable.LabelInjective | MoonCalendar/MoonPhase.cs:80-121 | Two phases have the same label only if they are the same phase. |
| PhaseTable.PhaseLabelsCount | MoonCalendar/MoonPhase.cs:80-121 | There are exactly eight distinct labels, and every phase's label is one of them. |
| PhaseTable.ThresholdsIncreasing | MoonCalendar/MoonPhase.cs:80-115 | The eight thresholds are strictly increasing. |
| PhaseTable.CountLocates | MoonCalendar/MoonPhase.cs:80-121 | In any strictly increasing threshold list, the number of thresholds at or below an age places the age between two adjacent thresholds. |
| PhaseTable.BucketsPartition | MoonCalendar/MoonPhase.cs:80-121 | Every age lies in exactly one of the nine buckets: the one numbered by the count of thresholds at or below it. |
| PhaseTable.PhaseOfBucket | MoonCalendar/MoonPhase.cs:80-121 | An age in `[t(i-1), t(i))` gets bucket i's phase. Below the first threshold and at or above the last, the phase is the new moon. |
| PhaseTable.PhaseMatchesTable | MoonCalendar/MoonPhase.cs:80-121 | The cascade of strict tests returns the same phase as the table lookup by threshold count. |
| PhaseTable.PhaseSwitchesAtThreshold | MoonCalendar/MoonPhase.cs:80-119 | An age exactly at a threshold falls into the next bucket. Every age of the bucket below gets a different phase. |
| MoonPhase.Create | MoonCalendar/MoonPhase.cs:18-22 | An invalid date gives `InvalidDate`. A valid date is kept as given. |
| MoonPhase.CreateExamples | MoonCalendar/MoonPhase.cs:18-22 | These are rejected: 2023-02-30, month 13, 2023-04-31 and 1900-02-29. These are accepted: 2023-02-28, 2024-02-29 and 2000-02-29. |
| MoonPhase.CreateAcceptsReformGap | MoonCalendar/MoonPhase.cs:18-22 | `Create` accepts 1582-10-05 and 1582-10-14, days the reform skipped, which get the same day numbers (2299151, 2299160) as 1582-09-25 and 1582-10-04. It refuses 1500-02-29, a Julian leap day. |
| MoonPhase.MoonPosit | MoonCalendar/MoonPhase.cs:25-54 | The method's step-by-step computation yields the intended day number, an age in [0, 29.53) equal to `Age(jd)`, and the label of that age's phase. |
| MoonPhase.EpochIsNewMoon | MoonCalendar/MoonPhase.cs:37-54 | 2000-01-06 is day 2451550. Its age, about 29.43, falls into the default bucket and is labelled "Новая Луна". |
| MoonPhase.AcceptedDateFitsInt32 | MoonCalendar/MoonPhase.cs:18-50 | Every date that `Create` accepts has a valid month, and its day number fits a 32-bit int. |

## Findings

| source | as written | input that shows it | evidently intended | confidence | as-written member | corrected member |
|---|---|---|---|---|---|---|
| MoonCalendar/MoonPhase.cs:45 | `k3 = floor((yy / 100.0 + 49) * 0.75) - 38`: the century is a real quotient, so the correction rises at shifted years 1634, 1767, 2034, 2167, ... instead of at the century years 1700, 1800, 2100, 2200, ... and is one too large in between | 2034-02-28 and 2034-03-01 both give day 2464022. 2050-01-01 gives 2469807 instead of its standard number 2469808. 1634-02-28 and 1634-03-01 share a day number too | `k3 = floor(floor(yy / 100 + 49) * 0.75) - 38`, the standard civil-to-Julian-day correction, which changes only at century years not divisible by 400 | high; not executed | JulianDate.AsWrittenRepeatsDay | JulianDate.JulianDayNextGregorianDay |

`JulianDate.JulianDayAsWritten` keeps the code as written. `JulianDate.CorrectionAsWrittenExcess` states exactly where it goes wrong: it is one day early after the cutover in shifted years 1634-1699, 1767-1799, 2034-2099, 2167-2199 and the same ranges every 400 years later, and right everywhere else, including the three reference dates (`JulianDate.ReferenceDaysAsWritten`). `JulianDate.AsWrittenAtMostOneDayEarly` bounds the error to one day. `MoonPhase.MoonPosit` uses the corrected `JulianDate.JulianDay`.

A second quirk is the source's own behaviour and is modelled as it is, not corrected: `Create` checks dates in the proleptic Gregorian calendar, while the day number counts Julian-calendar days up to 4 October 1582. So `Create` accepts 5-14 October 1582, which the reform skipped, and these get the same day numbers as 25 September - 4 October 1582. It refuses 29 February of Julian leap years such as 1500, which the day number would count. `MoonPhase.CreateAcceptsReformGap` shows both.

## Left out

- Distance, latitude and longitude (MoonPhase.cs lines 55-65) are left out. They are sums of `Math.Sin` and `Math.Cos` terms, floating-point trigonometry with no exact counterpart. The rescaling of `ip` by 2π at line 55 is left out for the same reason. Only the fractions under these formulas are modelled, as `LunarCycle.CycleFraction`.
- The console output and `Console.ReadLine` (lines 67-73) are left out. `MoonPhase.MoonPosit` returns the day number, the age and the label instead of printing them.
- The parameterless constructor (line 9) reads the system clock through `DateTime.Now`. It is left out. A caller passes the date instead.
- The fields `_currentYear`, `_currentMonth` and `_currentDay` and the private constructor that sets them (lines 5-7, 11-16) are not modelled as state. They are stored but never read, so `Create` returns the accepted triple as a `CivilDate` value.
- MoonPhase.Create: the date check at line 20 is `DateTime.TryParse` on the string "day.month.year", a culture-dependent library call. The model stands in for it with `CalendarDate`, which accepts the real proleptic Gregorian dates with years 1..9999. A culture that reads the string in another field order would accept a different set of dates, and that is not modelled.
- Binary floating-point rounding is left out. Age and `Normalize` are computed over exact reals, and the day number over exact integers. The integer forms of `k1`, `k2` and `k3` are exact floors of the decimal expressions. No value of `30.6 * mm + 0.5` for `mm` in 0..11 lies near an integer, so rounding of 30.6 cannot change `k2`.
- MoonPhase.MoonPosit: 32-bit overflow of the `int` locals is not modelled. `JulianDate.JulianDayFitsInt32` shows there is none for years 1..9999, which is the range `Create` admits.
- MoonPhase.MoonPosit: it computes `k3` with the century floored, not with the real division at line 45 (see Findings), so for dates after the cutover in shifted years 1634-1699, 1767-1799, 2034-2099, 2167-2199 and the same ranges every 400 years later it returns a day number one higher than the source's, and the age and label computed from it. `JulianDate.JulianDayAsWritten` models the line as written.
