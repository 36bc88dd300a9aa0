/**
  The Julian-day block at the top of MoonPhase.MoonPosit: a civil (year, month, day)
  becomes an integer day number at 12h UT.

  Every Math.Floor of a decimal product in the source is written here as an integer
  division (Dafny's `/` floors when the divisor is positive), and each integer form is
  proved equal to the floor of the source's own decimal expression over exact reals.
 */
module JulianDate {

  /** The raw day count above which the Gregorian correction is subtracted. */
  const Cutover: int := 2299160

  datatype CivilDate = CivilDate(year: int, month: int, day: int)

  predicate ValidMonth(month: int) {
    1 <= month <= 12
  }

  // ---------------------------------------------------------------------------
  // Floors of decimal products as integer divisions
  // ---------------------------------------------------------------------------

  lemma DivDecompose(n: int, d: int)
    requires d > 0
    ensures n == d * (n / d) + n % d && 0 <= n % d < d
  {
  }

  /** The floor of an exact real quotient is the integer quotient. */
  lemma FloorOfQuotient(n: int, d: int)
    requires d > 0
    ensures (n as real / d as real).Floor == n / d
  {
    var q, r := n / d, n % d;
    DivDecompose(n, d);
    assert n as real == d as real * q as real + r as real;
    assert n as real / d as real == q as real + r as real / d as real;
    assert 0.0 <= r as real / d as real < 1.0;
  }

  // ---------------------------------------------------------------------------
  // The March-based year and month (MoonPhase.cs lines 37-42)
  // ---------------------------------------------------------------------------

  /** yy: January and February are counted as months of the previous year. */
  function ShiftedYear(year: int, month: int): (yy: int)
    requires ValidMonth(month)
    ensures yy == (if month <= 2 then year - 1 else year)
  {
    year - (12 - month) / 10
  }

  /** mm: March is month 0 and February month 11. */
  function ShiftedMonth(month: int): (mm: int)
    requires ValidMonth(month)
    ensures 0 <= mm < 12 && mm == (month + 9) % 12
    ensures mm == 0 <==> month == 3
    ensures mm == 11 <==> month == 2
  {
    var m := month + 9;
    if m >= 12 then m - 12 else m
  }

  // ---------------------------------------------------------------------------
  // k1, k2, k3 (MoonPhase.cs lines 43-45)
  // ---------------------------------------------------------------------------

  /**
    k1: days from the epoch to 1 March of shifted year yy, counting the
    yy + 4712 Julian years before it at 365 days each plus one leap day in four.
   */
  function YearDays(yy: int): (k1: int)
    ensures k1 == 365 * (yy + 4712) + (yy + 4712) / 4
  {
    var n := yy + 4712;
    DivDecompose(n, 4);
    assert 1461 * n == 4 * (365 * n + n / 4) + n % 4;
    (1461 * n) / 4
  }

  /** First days of the March-based months, from 1 March: 31 and 30 days alternate, July and August both 31. */
  const MonthStarts: seq<int> := [0, 31, 61, 92, 122, 153, 184, 214, 245, 275, 306, 337]

  /** k2: days from 1 March to the first day of shifted month mm. */
  function MonthDays(mm: int): (k2: int)
    ensures 0 <= mm < 12 ==> k2 == MonthStarts[mm]
  {
    (306 * mm + 5) / 10
  }

  /** k3 exactly as the source computes it: `yy / 100.0` is a real division. */
  function CorrectionAsWritten(yy: int): (k3: int)
    ensures Correction(yy) <= k3 <= Correction(yy) + 1
  {
    var c, r := yy / 100, yy % 100;
    DivDecompose(yy, 100);
    var n := 3 * (c + 49);
    DivDecompose(n, 4);
    DivDecompose(3 * (yy + 4900), 400);
    assert 3 * (yy + 4900) == 400 * (n / 4) + 100 * (n % 4) + 3 * r;
    (3 * (yy + 4900)) / 400 - 38
  }

  /**
    k3 as the standard algorithm intends it, with the century floored first:
    the number of century years not divisible by 400 that the Gregorian calendar
    drops as leap years, counted so that it is 10 in the sixteenth century.
   */
  function Correction(yy: int): (k3: int)
    ensures k3 == yy / 100 - yy / 400 - 2
  {
    CenturyCorrection(yy);
    (3 * (yy / 100 + 49)) / 4 - 38
  }

  /** Each integer form is the floor the source takes of its decimal expression. */
  lemma ShiftedYearMatchesSource(year: int, month: int)
    requires ValidMonth(month)
    ensures ShiftedYear(year, month) == year - ((12.0 - month as real) / 10.0).Floor
  {
    FloorOfQuotient(12 - month, 10);
  }

  lemma YearDaysMatchesSource(yy: int)
    ensures YearDays(yy) == (365.25 * (yy as real + 4712.0)).Floor
  {
    FloorOfQuotient(1461 * (yy + 4712), 4);
  }

  lemma MonthDaysMatchesSource(mm: int)
    ensures MonthDays(mm) == (30.6 * mm as real + 0.5).Floor
  {
    FloorOfQuotient(306 * mm + 5, 10);
  }

  lemma CorrectionAsWrittenMatchesSource(yy: int)
    ensures CorrectionAsWritten(yy) == ((yy as real / 100.0 + 49.0) * 0.75).Floor - 38
  {
    FloorOfQuotient(3 * (yy + 4900), 400);
  }

  /** The intended correction is the standard floor(floor(yy / 100 + 49) * 0.75) - 38. */
  lemma CorrectionMatchesStandard(yy: int)
    ensures Correction(yy) == (((yy as real / 100.0).Floor + 49) as real * 0.75).Floor - 38
  {
    FloorOfQuotient(yy, 100);
    FloorOfQuotient(3 * (yy / 100 + 49), 4);
  }

  lemma CenturyCorrection(yy: int)
    ensures (3 * (yy / 100 + 49)) / 4 - 38 == yy / 100 - yy / 400 - 2
  {
  }

  /** The dates on or before 4 October 1582, the last day of the Julian calendar. */
  predicate BeforeReform(year: int, month: int, day: int) {
    year < 1582 || (year == 1582 && (month < 10 || (month == 10 && day <= 4)))
  }

  /** Where k1 stands around the reform: shifted year 1582 begins on 1 March 1582. */
  lemma YearDaysAroundReform(yy: int)
    ensures YearDays(1581) == 2298518 && YearDays(1582) == 2298883
    ensures yy <= 1581 ==> YearDays(yy) <= 2298518
    ensures yy >= 1583 ==> YearDays(yy) >= 2299248
  {
    DivDecompose(yy + 4712, 4);
  }

  /**
    The raw day number jd before the Gregorian correction (line 46). For any day of
    the month from 1 to 31 it passes the cutover exactly after 4 October 1582.
   */
  function RawDay(year: int, month: int, day: int): (raw: int)
    requires ValidMonth(month)
    ensures 1 <= day <= 31 ==> (raw <= Cutover <==> BeforeReform(year, month, day))
  {
    YearDaysAroundReform(ShiftedYear(year, month));
    YearDays(ShiftedYear(year, month)) + MonthDays(ShiftedMonth(month)) + day + 59
  }

  /** The shifted years in which the written k3 exceeds the intended one. */
  predicate CorrectionTooLarge(yy: int) {
    (yy / 100 % 4 == 0 && yy % 100 >= 34) || (yy / 100 % 4 == 1 && yy % 100 >= 67)
  }

  /**
    The day number exactly as lines 37-50 compute it: the intended number, or one
    less after the cutover in the shifted years whose written k3 is too large.
   */
  function JulianDayAsWritten(year: int, month: int, day: int): (jd: int)
    requires ValidMonth(month)
    ensures jd == JulianDay(year, month, day)
                  - (if RawDay(year, month, day) > Cutover && CorrectionTooLarge(ShiftedYear(year, month)) then 1 else 0)
  {
    CorrectionAsWrittenExcess(ShiftedYear(year, month));
    var raw := RawDay(year, month, day);
    if raw > Cutover then raw - CorrectionAsWritten(ShiftedYear(year, month)) else raw
  }

  /**
    The day number with the intended Gregorian correction: a date with a day from
    1 to 31 keeps its raw Julian count exactly when it is on or before 4 October 1582;
    later dates lose the century leap days the Gregorian calendar drops.
   */
  function JulianDay(year: int, month: int, day: int): (jd: int)
    requires ValidMonth(month)
    ensures 1 <= day <= 31 ==> (jd == RawDay(year, month, day) <==> BeforeReform(year, month, day))
    ensures RawDay(year, month, day) > Cutover ==>
      var yy := ShiftedYear(year, month);
      jd == RawDay(year, month, day) - (yy / 100 - yy / 400 - 2)
  {
    var yy := ShiftedYear(year, month);
    var raw := RawDay(year, month, day);
    if raw > Cutover then
      DivDecompose(yy, 100);
      DivDecompose(yy, 400);
      raw - Correction(yy)
    else raw
  }

  // ---------------------------------------------------------------------------
  // Properties of the pieces
  // ---------------------------------------------------------------------------

  /** Length of the month whose shifted number is mm (February: the Julian 28). */
  function MarchMonthLength(mm: int): nat
    requires 0 <= mm < 11
  {
    [31, 30, 31, 30, 31, 31, 30, 31, 30, 31, 31][mm]
  }

  /** Consecutive month starts in k2 are one month length apart, March to January. */
  lemma MonthDaysStep(mm: int)
    requires 0 <= mm < 11
    ensures MonthDays(mm + 1) - MonthDays(mm) == MarchMonthLength(mm)
  {
  }

  /** k1 advances by 366 days exactly when the shifted year ends in a Julian leap February. */
  lemma YearDaysStep(yy: int)
    ensures YearDays(yy + 1) - YearDays(yy) == if (yy + 1) % 4 == 0 then 366 else 365
  {
    DivDecompose(yy + 4712, 4);
    DivDecompose(yy + 4713, 4);
  }

  lemma DivStep(y: int)
    ensures y / 100 - (y - 1) / 100 == if y % 100 == 0 then 1 else 0
    ensures y / 400 - (y - 1) / 400 == if y % 400 == 0 then 1 else 0
  {
  }

  /** The intended correction grows by one exactly at century years not divisible by 400. */
  lemma CorrectionStep(y: int)
    ensures Correction(y) - Correction(y - 1) == if y % 100 == 0 && y % 400 != 0 then 1 else 0
  {
    DivStep(y);
    DivDecompose(y, 400);
    DivDecompose(y, 100);
    if y % 400 == 0 {
      assert y % 100 == 0;
    }
  }

  /**
    The written k3 is one too large exactly in the last 66 years of a century that
    follows a multiple of 400 and the last 33 years of the century after it
    (1634-1699, 1767-1799, 2034-2099, 2167-2199, ...); elsewhere the two agree.
   */
  lemma CorrectionAsWrittenExcess(yy: int)
    ensures CorrectionAsWritten(yy) == Correction(yy) + 1 <==> CorrectionTooLarge(yy)
  {
    var c, r := yy / 100, yy % 100;
    DivDecompose(yy, 100);
    DivDecompose(c, 4);
    var n := 3 * (c + 49);
    DivDecompose(n, 4);
    DivDecompose(3 * (yy + 4900), 400);
    assert 3 * (yy + 4900) == 400 * (n / 4) + 100 * (n % 4) + 3 * r;
    assert n == 12 * (c / 4) + 3 * (c % 4) + 147;
    assert n % 4 == (3 * (c % 4) + 3) % 4;
  }

  // ---------------------------------------------------------------------------
  // Calendars
  // ---------------------------------------------------------------------------

  predicate LeapYear(year: int, gregorian: bool) {
    if gregorian then year % 4 == 0 && (year % 100 != 0 || year % 400 == 0)
    else year % 4 == 0
  }

  function DaysInMonth(year: int, month: int, gregorian: bool): (n: int)
    requires ValidMonth(month)
    ensures 28 <= n <= 31
  {
    if month == 2 then (if LeapYear(year, gregorian) then 29 else 28)
    else if month in {4, 6, 9, 11} then 30
    else 31
  }

  predicate ValidDate(year: int, month: int, day: int, gregorian: bool) {
    ValidMonth(month) && 1 <= day <= DaysInMonth(year, month, gregorian)
  }

  /** The calendar day after a valid date, in the same calendar. */
  function NextDay(year: int, month: int, day: int, gregorian: bool): (next: CivilDate)
    requires ValidDate(year, month, day, gregorian)
    ensures ValidDate(next.year, next.month, next.day, gregorian)
  {
    if day < DaysInMonth(year, month, gregorian) then CivilDate(year, month, day + 1)
    else if month < 12 then CivilDate(year, month + 1, 1)
    else CivilDate(year + 1, 1, 1)
  }

  /** The raw count advances by the day step, which for a valid date is 1 or (1 March after a dropped Gregorian leap day) 2. */
  lemma RawDayNext(year: int, month: int, day: int, gregorian: bool)
    requires ValidDate(year, month, day, gregorian)
    ensures var n := NextDay(year, month, day, gregorian);
      RawDay(n.year, n.month, n.day) - RawDay(year, month, day)
        == if month == 2 && day == DaysInMonth(year, 2, gregorian)
           then (if year % 4 == 0 then 30 else 29) - day
           else 1
  {
    var n := NextDay(year, month, day, gregorian);
    if day < DaysInMonth(year, month, gregorian) {
    } else if month == 2 {
      YearDaysStep(year - 1);
    } else if month < 12 {
      MonthDaysStep(ShiftedMonth(month));
    } else {
      MonthDaysStep(9);
    }
  }

  /** Across the end of February the raw step and the correction step cancel to one day. */
  lemma GregorianFebruaryStep(year: int)
    ensures (if year % 4 == 0 then 30 else 29) - DaysInMonth(year, 2, true)
              - (Correction(year) - Correction(year - 1)) == 1
  {
    var d := DaysInMonth(year, 2, true);
    assert d == if LeapYear(year, true) then 29 else 28;
    CorrectionStep(year);
    DivisibilityChain(year);
  }

  lemma DivisibilityChain(year: int)
    ensures year % 400 == 0 ==> year % 100 == 0
    ensures year % 100 == 0 ==> year % 4 == 0
  {
    DivDecompose(year, 100);
    DivDecompose(year, 400);
    if year % 100 == 0 {
      assert year == 4 * (25 * (year / 100));
    }
    if year % 400 == 0 {
      assert year == 100 * (4 * (year / 400));
    }
  }

  /**
    The intended day number counts proleptic Gregorian days without gap or repeat
    on the corrected side of the cutover.
   */
  lemma JulianDayNextGregorianDay(year: int, month: int, day: int)
    requires ValidDate(year, month, day, true)
    requires RawDay(year, month, day) > Cutover
    ensures var n := NextDay(year, month, day, true);
      JulianDay(n.year, n.month, n.day) == JulianDay(year, month, day) + 1
  {
    var n := NextDay(year, month, day, true);
    RawDayNext(year, month, day, true);
    if month == 2 && day == DaysInMonth(year, 2, true) {
      assert n == CivilDate(year, 3, 1);
      assert ShiftedYear(year, 2) == year - 1 && ShiftedYear(year, 3) == year;
      GregorianFebruaryStep(year);
    } else {
      assert ShiftedYear(n.year, n.month) == ShiftedYear(year, month);
    }
  }

  /** Below the cutover the day number counts Julian-calendar days without gap or repeat. */
  lemma JulianDayNextJulianDay(year: int, month: int, day: int)
    requires ValidDate(year, month, day, false)
    requires var n := NextDay(year, month, day, false); RawDay(n.year, n.month, n.day) <= Cutover
    ensures var n := NextDay(year, month, day, false);
      JulianDay(n.year, n.month, n.day) == JulianDay(year, month, day) + 1
  {
    RawDayNext(year, month, day, false);
  }

  /** The written day number is the intended one or one day earlier. */
  lemma AsWrittenAtMostOneDayEarly(year: int, month: int, day: int)
    requires ValidMonth(month)
    ensures var jd := JulianDay(year, month, day);
      JulianDayAsWritten(year, month, day) == jd || JulianDayAsWritten(year, month, day) == jd - 1
  {
  }

  // ---------------------------------------------------------------------------
  // Reference values
  // ---------------------------------------------------------------------------

  /**
    Julian 1582-10-04 is the last uncorrected day, number 2299160; the next day,
    Gregorian 1582-10-15, is 2299161 after a correction of 10.
   */
  lemma CutoverDays()
    ensures RawDay(1582, 10, 4) == Cutover && JulianDay(1582, 10, 4) == 2299160
    ensures Correction(1582) == 10 && JulianDay(1582, 10, 15) == 2299161
  {
    assert YearDays(1582) == 2298883 && MonthDays(7) == 214;
    assert RawDay(1582, 10, 15) == 2299171;
  }

  /** 2000-01-06, the new moon used as the age epoch, is day 2451550. */
  lemma EpochDay()
    ensures JulianDay(2000, 1, 6) == 2451550
  {
  }

  /** The code as written gives the same three reference numbers. */
  lemma ReferenceDaysAsWritten()
    ensures JulianDayAsWritten(1582, 10, 4) == 2299160
    ensures JulianDayAsWritten(1582, 10, 15) == 2299161
    ensures JulianDayAsWritten(2000, 1, 6) == 2451550
  {
  }

  /**
    As written, the real division yy / 100.0 raises the correction to 14 from shifted
    year 2034 on, so 28 February and 1 March 2034 get the same day number and
    1 January 2050 is one day short of its standard number 2469808.
   */
  lemma AsWrittenRepeatsDay()
    ensures JulianDayAsWritten(2034, 2, 28) == JulianDayAsWritten(2034, 3, 1) == 2464022
    ensures NextDay(2034, 2, 28, true) == CivilDate(2034, 3, 1)
    ensures JulianDay(2034, 3, 1) == JulianDay(2034, 2, 28) + 1
    ensures JulianDayAsWritten(2050, 1, 1) == 2469807 && JulianDay(2050, 1, 1) == 2469808
  {
    assert CorrectionAsWritten(2033) == 13 && CorrectionAsWritten(2034) == 14;
    assert Correction(2033) == 13 && Correction(2034) == 13;
    assert RawDay(2034, 2, 28) == 2464035 && RawDay(2034, 3, 1) == 2464036;
    assert CorrectionAsWritten(2049) == 14 && Correction(2049) == 13;
    assert RawDay(2050, 1, 1) == 2469821;
  }

  /**
    The same slip already shows in shifted year 1634: 28 February and 1 March 1634
    share a day number as written, and 1 June 1650 comes out one day early.
   */
  lemma AsWrittenEarlyFrom1634()
    ensures CorrectionAsWritten(1633) == 10 && CorrectionAsWritten(1634) == 11 && Correction(1634) == 10
    ensures JulianDayAsWritten(1634, 2, 28) == JulianDayAsWritten(1634, 3, 1)
    ensures JulianDayAsWritten(1650, 6, 1) == JulianDay(1650, 6, 1) - 1
  {
    assert RawDay(1634, 2, 28) > Cutover && RawDay(1634, 3, 1) > Cutover;
    assert RawDay(1650, 6, 1) > Cutover;
  }

  /** For every year DateTime accepts, k1 and the day number fit the source's 32-bit int. */
  lemma JulianDayFitsInt32(year: int, month: int, day: int)
    requires 1 <= year <= 9999 && ValidMonth(month) && 1 <= day <= 31
    ensures 0 < YearDays(ShiftedYear(year, month)) < 0x8000_0000
    ensures 0 < JulianDay(year, month, day) < 0x8000_0000
    ensures 0 < JulianDayAsWritten(year, month, day) < 0x8000_0000
  {
  }
}
