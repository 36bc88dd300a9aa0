/**
  Normalize and the moon's age (MoonPhase.Normalize and lines 52-64 of MoonPosit),
  over exact reals: the source's doubles are read as the decimal values they spell.
 */
module LunarCycle {

  /** Length of the synodic month and the Julian day of the reference new moon. */
  const SynodicMonth: real := 29.530588853
  const SynodicEpoch: real := 2451550.1
  /** The factor that turns a synodic fraction into an age in days. */
  const AgeScale: real := 29.53

  const AnomalisticMonth: real := 27.55454988
  const AnomalisticEpoch: real := 2451562.2
  const DraconicMonth: real := 27.212220817
  const DraconicEpoch: real := 2451565.2
  const TropicalMonth: real := 27.321582241
  const TropicalEpoch: real := 2451555.8

  predicate IsInteger(x: real) {
    x.Floor as real == x
  }

  /** The fractional part of v: in [0, 1), and v minus it is a whole number. */
  function Normalize(v: real): (r: real)
    ensures 0.0 <= r < 1.0
    ensures IsInteger(v - r)
  {
    var f := v - v.Floor as real;
    if f < 0.0 then f + 1.0 else f
  }

  /** The correction for a negative difference never fires: the result is v - floor(v). */
  lemma NormalizeIsFloorRemainder(v: real)
    ensures v - v.Floor as real >= 0.0
    ensures Normalize(v) == v - v.Floor as real
  {
  }

  /** Any r in [0, 1) that differs from v by a whole number is Normalize(v). */
  lemma NormalizeUnique(v: real, r: real)
    requires 0.0 <= r < 1.0 && IsInteger(v - r)
    ensures Normalize(v) == r
  {
  }

  /** Normalize ignores whole numbers added to its argument. */
  lemma NormalizePeriodic(v: real, k: int)
    ensures Normalize(v + k as real) == Normalize(v)
  {
    var r := Normalize(v);
    var w := v - r;
    assert w.Floor as real == w;
    assert v + k as real - r == (w.Floor + k) as real;
    assert IsInteger(v + k as real - r);
    NormalizeUnique(v + k as real, r);
  }

  /** Values already in [0, 1) are left alone. */
  lemma NormalizeFixesUnitInterval(v: real)
    requires 0.0 <= v < 1.0
    ensures Normalize(v) == v
  {
    assert (0.0).Floor == 0;
    NormalizeUnique(v, v);
  }

  /** Adding a step in [0, 1) advances the fraction by that step, wrapping past 1 once at most. */
  lemma NormalizeStep(v: real, step: real)
    requires 0.0 <= step < 1.0
    ensures var r := Normalize(v);
      Normalize(v + step) == (if r + step < 1.0 then r + step else r + step - 1.0)
  {
    var r := Normalize(v);
    var k := (v - r).Floor;
    assert v - r == k as real;
    if r + step < 1.0 {
      assert (v + step) - (r + step) == k as real;
      assert IsInteger((v + step) - (r + step));
      NormalizeUnique(v + step, r + step);
    } else {
      assert (v + step) - (r + step - 1.0) == (k + 1) as real;
      assert IsInteger((v + step) - (r + step - 1.0));
      NormalizeUnique(v + step, r + step - 1.0);
    }
  }

  /** The position of day jd within a cycle of the given period, as a fraction in [0, 1). */
  function CycleFraction(jd: int, epoch: real, period: real): (f: real)
    requires period > 0.0
    ensures 0.0 <= f < 1.0
  {
    Normalize((jd as real - epoch) / period)
  }

  /** ip before its rescaling by 2 pi (line 52). */
  function SynodicFraction(jd: int): real {
    CycleFraction(jd, SynodicEpoch, SynodicMonth)
  }

  /** The fraction under dp (line 57), the anomaly that drives distance. */
  function AnomalisticFraction(jd: int): real {
    CycleFraction(jd, AnomalisticEpoch, AnomalisticMonth)
  }

  /** The fraction under np (line 61), the draconic argument of latitude. */
  function DraconicFraction(jd: int): real {
    CycleFraction(jd, DraconicEpoch, DraconicMonth)
  }

  /** rp (line 64), the tropical fraction that 360 * rp turns into mean longitude. */
  function TropicalFraction(jd: int): real {
    CycleFraction(jd, TropicalEpoch, TropicalMonth)
  }

  /** The four fractions are all in [0, 1), so 360 * rp is in [0, 360). */
  lemma FractionsInUnitInterval(jd: int)
    ensures 0.0 <= SynodicFraction(jd) < 1.0
    ensures 0.0 <= AnomalisticFraction(jd) < 1.0
    ensures 0.0 <= DraconicFraction(jd) < 1.0
    ensures 0.0 <= 360.0 * TropicalFraction(jd) < 360.0
  {
  }

  /** ag, the moon's age in days (line 53). */
  function Age(jd: int): (ag: real)
    ensures 0.0 <= ag < AgeScale
  {
    SynodicFraction(jd) * AgeScale
  }

  /** The age gained in one day: 29.53 / 29.530588853, just under one day. */
  const DailyAgeStep: real := AgeScale / SynodicMonth

  /** From one day to the next the age grows by DailyAgeStep, or wraps back by 29.53 once. */
  lemma AgeNextDay(jd: int)
    ensures Age(jd + 1) == Age(jd) + DailyAgeStep
         || Age(jd + 1) == Age(jd) + DailyAgeStep - AgeScale
  {
    var v := (jd as real - SynodicEpoch) / SynodicMonth;
    var step := 1.0 / SynodicMonth;
    assert (((jd + 1) as real) - SynodicEpoch) / SynodicMonth == v + step;
    NormalizeStep(v, step);
    assert step * AgeScale == DailyAgeStep;
  }

  /** Just before the epoch the age is about 29.43 days; on the following day about 0.9. */
  lemma AgeAroundEpoch()
    ensures 29.43 < Age(2451550) < 29.431
    ensures 0.8999 < Age(2451551) < 0.9
  {
  }
}
