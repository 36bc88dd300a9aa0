/**
  The MoonPhase class: date validation in Create and the calculation in MoonPosit,
  from the Julian day to the age and the phase label.
 */
module MoonPhase {
  import opened JulianDate
  import opened LunarCycle
  import opened PhaseTable

  datatype DateError = InvalidDate

  datatype Result<T> = Ok(value: T) | Err(error: DateError)

  /**
    The dates Create accepts, taken as the real proleptic Gregorian dates in
    DateTime's year range 1 to 9999.
   */
  predicate CalendarDate(year: int, month: int, day: int) {
    1 <= year <= 9999 && ValidDate(year, month, day, true)
  }

  /** Create: an invalid date is refused, a valid one is kept as given. */
  function Create(year: int, month: int, day: int): (r: Result<CivilDate>)
    ensures r.Ok? <==> CalendarDate(year, month, day)
    ensures r.Ok? ==> r.value == CivilDate(year, month, day)
    ensures r.Err? ==> r.error == InvalidDate
  {
    if CalendarDate(year, month, day) then Ok(CivilDate(year, month, day))
    else Err(InvalidDate)
  }

  /** A thirtieth of February, a thirteenth month and a thirty-first of April are refused. */
  lemma CreateExamples()
    ensures Create(2023, 2, 30) == Err(InvalidDate)
    ensures Create(2023, 13, 1) == Err(InvalidDate)
    ensures Create(2023, 4, 31) == Err(InvalidDate)
    ensures Create(2023, 2, 28) == Ok(CivilDate(2023, 2, 28))
    ensures Create(2024, 2, 29) == Ok(CivilDate(2024, 2, 29))
    ensures Create(1900, 2, 29) == Err(InvalidDate)
    ensures Create(2000, 2, 29) == Ok(CivilDate(2000, 2, 29))
  {
  }

  /**
    Create checks dates in the proleptic Gregorian calendar, so it accepts the ten
    days 5-14 October 1582 that the reform skipped, whose day numbers repeat those of
    25 September - 4 October 1582, and refuses 29 February 1500, a Julian leap day.
   */
  lemma CreateAcceptsReformGap()
    ensures Create(1582, 10, 5).Ok? && Create(1582, 10, 14).Ok?
    ensures JulianDay(1582, 10, 5) == JulianDay(1582, 9, 25) == 2299151
    ensures JulianDay(1582, 10, 14) == JulianDay(1582, 10, 4) == 2299160
    ensures Create(1500, 2, 29) == Err(InvalidDate)
  {
    assert RawDay(1582, 10, 5) == 2299161 && RawDay(1582, 10, 14) == 2299170;
  }

  /**
    MoonPosit up to the phase label, one step at a time as the source takes them.
    The Gregorian correction floors the century before scaling it (see JulianDate.Correction).
   */
  method MoonPosit(year: int, month: int, day: int) returns (jd: int, ag: real, phase: string)
    requires ValidMonth(month)
    ensures jd == JulianDay(year, month, day)
    ensures 0.0 <= ag < AgeScale && ag == Age(jd)
    ensures phase in PhaseLabels && phase == Label(PhaseOf(ag))
  {
    var yy := year - (12 - month) / 10;
    var mm := month + 9;
    if mm >= 12 {
      mm := mm - 12;
    }
    var k1 := (1461 * (yy + 4712)) / 4;
    var k2 := (306 * mm + 5) / 10;
    var k3 := (3 * (yy / 100 + 49)) / 4 - 38;
    jd := k1 + k2 + day + 59;
    if jd > Cutover {
      jd := jd - k3;
    }
    var ip := Normalize((jd as real - SynodicEpoch) / SynodicMonth);
    ag := ip * AgeScale;
    phase := MoonPhaseCalc(ag);
  }

  /** 2000-01-06 is day 2451550, whose age of about 29.43 days falls in the default new-moon bucket. */
  lemma EpochIsNewMoon()
    ensures JulianDay(2000, 1, 6) == 2451550
    ensures InBucket(Age(2451550), 8) && PhaseOf(Age(2451550)) == NewMoon
    ensures MoonPhaseCalc(Age(2451550)) == "Новая Луна"
  {
    EpochDay();
    AgeAroundEpoch();
  }

  /** Every date Create accepts reaches MoonPosit with a month it can shift, and its day number fits an int. */
  lemma AcceptedDateFitsInt32(year: int, month: int, day: int)
    requires Create(year, month, day).Ok?
    ensures ValidMonth(month) && 0 < JulianDay(year, month, day) < 0x8000_0000
  {
    JulianDayFitsInt32(year, month, day);
  }
}
