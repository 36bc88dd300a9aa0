/**
  MoonPhaseCalc: the moon's age in days is classified by eight ascending thresholds,
  each tested with a strict `<`, and ages at or past the last one fall back to the
  new moon.
 */
module PhaseTable {

  datatype Phase =
    | NewMoon
    | WaxingCrescent
    | FirstQuarter
    | WaxingGibbous
    | FullMoon
    | WaningGibbous
    | LastQuarter
    | WaningCrescent

  /** The upper bounds of the first eight buckets, in the order they are tested. */
  const Thresholds: seq<real> :=
    [1.84566, 5.53699, 9.22831, 12.91963, 16.61096, 20.30228, 23.99361, 27.68493]

  /** Bucket i holds the ages in [Thresholds[i-1], Thresholds[i]); bucket 8 is the default. */
  const Buckets: seq<Phase> :=
    [NewMoon, WaxingCrescent, FirstQuarter, WaxingGibbous, FullMoon,
     WaningGibbous, LastQuarter, WaningCrescent, NewMoon]

  /** The cascade of early returns, one test per threshold: it returns the phase of the bucket ag lies in. */
  function PhaseOf(ag: real): (p: Phase)
    ensures forall i :: InBucket(ag, i) ==> p == Buckets[i]
  {
    if ag < 1.84566 then NewMoon
    else if ag < 5.53699 then WaxingCrescent
    else if ag < 9.22831 then FirstQuarter
    else if ag < 12.91963 then WaxingGibbous
    else if ag < 16.61096 then FullMoon
    else if ag < 20.30228 then WaningGibbous
    else if ag < 23.99361 then LastQuarter
    else if ag < 27.68493 then WaningCrescent
    else NewMoon
  }

  /** The label each phase is returned as, spelled as in the source; only the new moon is "Новая Луна". */
  function Label(p: Phase): (name: string)
    ensures name in PhaseLabels
    ensures name == "Новая Луна" <==> p == NewMoon
  {
    match p
    case NewMoon => "Новая Луна"
    case WaxingCrescent => "Waxing cresent"
    case FirstQuarter => "First quarter"
    case WaxingGibbous => "Waxing gibbous"
    case FullMoon => "Полная луна"
    case WaningGibbous => "Wanning gibbous"
    case LastQuarter => "Last quarter"
    case WaningCrescent => "Wanning crescent"
  }

  const PhaseLabels: set<string> :=
    {"Новая Луна", "Waxing cresent", "First quarter", "Waxing gibbous",
     "Полная луна", "Wanning gibbous", "Last quarter", "Wanning crescent"}

  /** MoonPhaseCalc: every age gets one of the eight labels. */
  function MoonPhaseCalc(ag: real): (name: string)
    ensures name in PhaseLabels
    ensures name == "Новая Луна" <==> ag < 1.84566 || ag >= 27.68493
  {
    Label(PhaseOf(ag))
  }

  /** The eight labels are distinct, so a label names its phase. */
  lemma LabelInjective(p: Phase, q: Phase)
    ensures Label(p) == Label(q) <==> p == q
  {
  }

  lemma PhaseLabelsCount()
    ensures |PhaseLabels| == 8
    ensures forall p: Phase :: Label(p) in PhaseLabels
  {
  }

  /** The thresholds are strictly increasing, so the buckets do not overlap. */
  lemma ThresholdsIncreasing()
    ensures |Thresholds| == 8 && |Buckets| == |Thresholds| + 1
    ensures forall i, j :: 0 <= i < j < |Thresholds| ==> Thresholds[i] < Thresholds[j]
  {
  }

  /** ag lies in bucket i: at or above the threshold before it, below the one after it. */
  predicate InBucket(ag: real, i: int) {
    0 <= i <= 8
    && (i == 0 || Thresholds[i - 1] <= ag)
    && (i == 8 || ag < Thresholds[i])
  }

  /** The number of thresholds at or below ag. */
  function CountAtMost(ts: seq<real>, ag: real): (n: nat)
    ensures n <= |ts|
  {
    if ts == [] then 0
    else CountAtMost(ts[..|ts| - 1], ag) + (if ts[|ts| - 1] <= ag then 1 else 0)
  }

  predicate Increasing(ts: seq<real>) {
    forall i, j :: 0 <= i < j < |ts| ==> ts[i] < ts[j]
  }

  /** In an increasing sequence, the count of entries at or below ag locates ag between two entries. */
  lemma {:induction false} CountLocates(ts: seq<real>, ag: real)
    requires Increasing(ts)
    ensures var n := CountAtMost(ts, ag);
      (n == 0 || ts[n - 1] <= ag) && (n == |ts| || ag < ts[n])
  {
    if ts != [] {
      var init := ts[..|ts| - 1];
      assert Increasing(init);
      CountLocates(init, ag);
      var m := CountAtMost(init, ag);
      if ts[|ts| - 1] > ag {
        assert m == 0 || init[m - 1] == ts[m - 1];
        assert m == |init| || init[m] == ts[m];
      }
    }
  }

  /** Every age lies in exactly one bucket: the one its threshold count names. */
  lemma BucketsPartition(ag: real, i: int)
    ensures InBucket(ag, CountAtMost(Thresholds, ag))
    ensures InBucket(ag, i) ==> i == CountAtMost(Thresholds, ag)
  {
    ThresholdsIncreasing();
    CountLocates(Thresholds, ag);
  }

  /** The cascade returns the phase of the bucket the age lies in. */
  lemma PhaseOfBucket(ag: real, i: int)
    requires InBucket(ag, i)
    ensures PhaseOf(ag) == Buckets[i]
  {
  }

  /** The cascade agrees with the table: the phase is the bucket of the threshold count. */
  lemma PhaseMatchesTable(ag: real)
    ensures PhaseOf(ag) == Buckets[CountAtMost(Thresholds, ag)]
  {
    BucketsPartition(ag, 0);
    PhaseOfBucket(ag, CountAtMost(Thresholds, ag));
  }

  /**
    An age exactly at a threshold already belongs to the next bucket, and the label
    changes there: any age of the bucket below gets a different phase.
   */
  lemma PhaseSwitchesAtThreshold(i: int, below: real)
    requires 0 <= i < 8 && InBucket(below, i)
    ensures PhaseOf(Thresholds[i]) == Buckets[i + 1]
    ensures PhaseOf(below) != PhaseOf(Thresholds[i])
  {
    ThresholdsIncreasing();
    PhaseOfBucket(Thresholds[i], i + 1);
    PhaseOfBucket(below, i);
  }
}
