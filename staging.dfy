/** Epoch staging: the per-stage table of epoch counts and minutes, and the
    metrics derived from it (efficiency, architecture, latencies, REM quality). */
module Staging {
  import opened Base
  import opened Annotations

  datatype StageEntry = StageEntry(count: nat, minutes: real)

  /** The stage dictionary: one entry per bucket. */
  type StageTable = map<Stage, StageEntry>

  /** The buckets a configuration keeps: the five scored stages, plus Unknown when enabled. */
  function Buckets(withUnknown: bool): (b: set<Stage>)
    ensures Wake in b && N1 in b && N2 in b && N3 in b && REM in b
    ensures Unknown in b <==> withUnknown
  {
    if withUnknown then {Wake, N1, N2, N3, REM, Unknown} else {Wake, N1, N2, N3, REM}
  }

  /** `t` is the table the staging loop produces from `anns`: one entry per
      bucket holding that stage's epoch count and half as many minutes. */
  predicate IsTallyOf(t: StageTable, anns: seq<Annotation>, withUnknown: bool) {
    t.Keys == Buckets(withUnknown)
    && forall s :: s in t ==>
         t[s] == EntryOf(EpochCount(anns, s, withUnknown))
  }

  /** The entry of a stage with `n` epochs: `n` counts and half a minute each. */
  function EntryOf(n: nat): StageEntry {
    StageEntry(n, n as real / 2.0)
  }

  /** A scored epoch's stage is one of the configuration's buckets. */
  lemma StageInBuckets(a: Annotation, withUnknown: bool)
    requires EpochStage(a, withUnknown).Some?
    ensures EpochStage(a, withUnknown).value in Buckets(withUnknown)
  {
  }

  /** One more epoch adds one count and half a minute. */
  lemma NextEntry(n: nat)
    ensures StageEntry(EntryOf(n).count + 1, EntryOf(n).minutes + 0.5) == EntryOf(n + 1)
  {
  }

  /** A table as the staging loop builds it: the five scored stages are
      present and every bucket's minutes are half its epoch count. */
  predicate WellFormed(t: StageTable) {
    Wake in t && N1 in t && N2 in t && N3 in t && REM in t
    && forall s :: s in t ==> t[s].minutes == t[s].count as real / 2.0
  }

  /** Counts the epochs of each stage, adding 0.5 minutes per epoch. */
  method CalculateStages(anns: seq<Annotation>, withUnknown: bool) returns (t: StageTable)
    ensures IsTallyOf(t, anns, withUnknown)
    ensures WellFormed(t)
  {
    t := map s | s in Buckets(withUnknown) :: StageEntry(0, 0.0);
    for i := 0 to |anns|
      invariant IsTallyOf(t, anns[..i], withUnknown)
    {
      t := TallyEpoch(t, anns, i, withUnknown);
    }
    assert anns[..|anns|] == anns;
  }

  /** One annotation of the loop: the epoch it scores adds one count and half a
      minute to its stage's entry. */
  method TallyEpoch(t: StageTable, anns: seq<Annotation>, i: nat, withUnknown: bool) returns (t': StageTable)
    requires i < |anns| && IsTallyOf(t, anns[..i], withUnknown)
    ensures IsTallyOf(t', anns[..i + 1], withUnknown)
  {
    TallyStep(anns[..i], anns[i], withUnknown);
    assert anns[..i] + [anns[i]] == anns[..i + 1];
    t' := t;
    var stage := EpochStage(anns[i], withUnknown);
    if stage.Some? {
      StageInBuckets(anns[i], withUnknown);
      var e := t[stage.value];
      NextEntry(EpochCount(anns[..i], stage.value, withUnknown));
      t' := t[stage.value := StageEntry(e.count + 1, e.minutes + 0.5)];
    }
    forall s | s in t'
      ensures t'[s] == EntryOf(EpochCount(anns[..i + 1], s, withUnknown))
    {
      assert t'[s] == if stage == Some(s) then EntryOf(EpochCount(anns[..i], s, withUnknown) + 1) else t[s];
    }
  }

  /** Reading one more annotation adds one epoch to exactly one stage, the one
      its label names, or to none when it scores no epoch. */
  lemma TallyStep(anns: seq<Annotation>, a: Annotation, withUnknown: bool)
    ensures forall s :: (EpochCount(anns + [a], s, withUnknown)
      == EpochCount(anns, s, withUnknown) + (if EpochStage(a, withUnknown) == Some(s) then 1 else 0))
  {
    assert (anns + [a])[..|anns|] == anns;
  }

  /** The table's counts add up to the number of epochs read. */
  lemma TallyCountsAllEpochs(t: StageTable, anns: seq<Annotation>, withUnknown: bool)
    requires IsTallyOf(t, anns, withUnknown)
    ensures t[Wake].count + t[N1].count + t[N2].count + t[N3].count + t[REM].count
      + (if withUnknown then t[Unknown].count else 0) == EpochTotal(anns, withUnknown)
  {
    EpochCountsPartition(anns, withUnknown);
    if !withUnknown {
      NoUnknownEpochs(anns);
    }
  }

  function UnknownMinutes(t: StageTable): real {
    if Unknown in t then t[Unknown].minutes else 0.0
  }

  /** Minutes of N1, N2, N3 and REM. */
  function SleepMinutes(t: StageTable): real
    requires WellFormed(t)
  {
    t[N1].minutes + t[N2].minutes + t[N3].minutes + t[REM].minutes
  }

  /** Minutes of every bucket. */
  function BedMinutes(t: StageTable): real
    requires WellFormed(t)
  {
    t[Wake].minutes + t[N1].minutes + t[N2].minutes + t[N3].minutes + t[REM].minutes + UnknownMinutes(t)
  }

  function NremMinutes(t: StageTable): real
    requires WellFormed(t)
  {
    t[N1].minutes + t[N2].minutes + t[N3].minutes
  }

  datatype Efficiency = Efficiency(
    sleepEfficiency: real, totalSleepTime: real, totalBedTime: real, wakeAfterSleepOnset: real)

  /** `calculate_sleep_efficiency`: sleep minutes as a share of the minutes in bed. */
  function CalculateEfficiency(t: StageTable): (r: Efficiency)
    requires WellFormed(t)
    ensures r.totalSleepTime == SleepMinutes(t) && r.totalBedTime == BedMinutes(t)
    ensures r.wakeAfterSleepOnset == t[Wake].minutes
    ensures r.totalBedTime > 0.0 ==> r.sleepEfficiency * r.totalBedTime == 100.0 * r.totalSleepTime
    ensures r.totalBedTime <= 0.0 ==> r.sleepEfficiency == 0.0
  {
    var sleep := SleepMinutes(t);
    var bed := BedMinutes(t);
    Efficiency(if bed > 0.0 then sleep / bed * 100.0 else 0.0, sleep, bed, t[Wake].minutes)
  }

  /** Efficiency is 0 with no time in bed, otherwise a percentage that reaches
      100 exactly when no minute was spent awake or unscored. */
  lemma EfficiencyBounds(t: StageTable)
    requires WellFormed(t)
    ensures var e := CalculateEfficiency(t);
      && (e.totalBedTime == 0.0 ==> e.sleepEfficiency == 0.0)
      && 0.0 <= e.sleepEfficiency <= 100.0
      && (e.sleepEfficiency == 100.0 <==>
            e.totalBedTime > 0.0 && t[Wake].minutes == 0.0 && UnknownMinutes(t) == 0.0)
  {
    var sleep := SleepMinutes(t);
    var bed := BedMinutes(t);
    if bed > 0.0 {
      ShareAtMostOne(sleep, bed);
    }
  }

  /** Time in bed is half a minute for every epoch the table counted. */
  lemma BedTimeIsAllEpochs(t: StageTable, anns: seq<Annotation>, withUnknown: bool)
    requires IsTallyOf(t, anns, withUnknown)
    ensures WellFormed(t)
    ensures BedMinutes(t) == EpochTotal(anns, withUnknown) as real / 2.0
  {
    TallyCountsAllEpochs(t, anns, withUnknown);
    assert UnknownMinutes(t) == if withUnknown then t[Unknown].count as real / 2.0 else 0.0;
  }

  lemma ShareAtMostOne(a: real, b: real)
    requires 0.0 <= a <= b && b > 0.0
    ensures 0.0 <= a / b <= 1.0
    ensures a / b == 1.0 <==> a == b
  {
  }

  datatype SleepRatios = SleepRatios(deepSleepRatio: real, remNremRatio: real)

  datatype Architecture = Architecture(
    n1Percentage: real, n2Percentage: real, n3Percentage: real, remPercentage: real,
    ratios: Option<SleepRatios>)

  /** Stage percentages of total sleep; `None` when there is no sleep.  With
      ratios enabled the REM/NREM ratio divides by the NREM minutes, which
      raises when every sleep epoch is REM. */
  function CalculateArchitecture(t: StageTable, withRatios: bool): (r: Result<Option<Architecture>>)
    requires WellFormed(t)
    ensures r == Ok(None) <==> SleepMinutes(t) == 0.0
    ensures r.Err? <==> withRatios && SleepMinutes(t) != 0.0 && NremMinutes(t) == 0.0
    ensures r.Err? ==> r.error == ZeroDivisionError
    ensures r.Ok? && r.value.Some? ==> (r.value.value.ratios.Some? <==> withRatios)
  {
    var sleep := SleepMinutes(t);
    if sleep == 0.0 then Ok(None)
    else
      var ratios :=
        if !withRatios then Ok(None)
        else if NremMinutes(t) == 0.0 then Err(ZeroDivisionError)
        else Ok(Some(SleepRatios(t[N3].minutes / sleep, t[REM].minutes / NremMinutes(t))));
      if ratios.Err? then Err(ratios.error)
      else Ok(Some(Architecture(
        t[N1].minutes / sleep * 100.0, t[N2].minutes / sleep * 100.0,
        t[N3].minutes / sleep * 100.0, t[REM].minutes / sleep * 100.0, ratios.value)))
  }

  /** The four percentages partition total sleep: each lies in [0, 100] and
      together they make 100; the deep-sleep ratio is the N3 share. */
  lemma ArchitecturePartition(t: StageTable, withRatios: bool)
    requires WellFormed(t)
    requires CalculateArchitecture(t, withRatios).Ok?
    requires CalculateArchitecture(t, withRatios).value.Some?
    ensures var a := CalculateArchitecture(t, withRatios).value.value;
      && a.n1Percentage + a.n2Percentage + a.n3Percentage + a.remPercentage == 100.0
      && 0.0 <= a.n1Percentage <= 100.0 && 0.0 <= a.n2Percentage <= 100.0
      && 0.0 <= a.n3Percentage <= 100.0 && 0.0 <= a.remPercentage <= 100.0
      && (a.ratios.Some? ==> a.ratios.value.deepSleepRatio * 100.0 == a.n3Percentage)
  {
    var sleep := SleepMinutes(t);
    FourShares(t[N1].minutes, t[N2].minutes, t[N3].minutes, t[REM].minutes);
    ShareAtMostOne(t[N1].minutes, sleep);
    ShareAtMostOne(t[N2].minutes, sleep);
    ShareAtMostOne(t[N3].minutes, sleep);
    ShareAtMostOne(t[REM].minutes, sleep);
  }

  lemma FourShares(a: real, b: real, c: real, d: real)
    requires a + b + c + d > 0.0
    ensures a / (a + b + c + d) + b / (a + b + c + d) + c / (a + b + c + d) + d / (a + b + c + d) == 1.0
  {
    var s := a + b + c + d;
    assert a / s + b / s == (a + b) / s;
    assert (a + b) / s + c / s == (a + b + c) / s;
    assert (a + b + c) / s + d / s == s / s;
  }

  /** A night whose only sleep is REM makes the ratio computation raise. */
  lemma OnlyRemSleepRaises()
    ensures var t := map[Wake := StageEntry(0, 0.0), N1 := StageEntry(0, 0.0), N2 := StageEntry(0, 0.0),
                         N3 := StageEntry(0, 0.0), REM := StageEntry(1, 0.5)];
      WellFormed(t) && CalculateArchitecture(t, true) == Err(ZeroDivisionError)
      && CalculateArchitecture(t, false).Ok?
  {
  }

  // ---------------------------------------------------------------- latencies

  /** Labels the latency loop treats as sleep: N1, N2, N3 and REM. */
  predicate IsSleepEpoch(a: Annotation) {
    (a.description == LabelN1 || a.description == LabelN2 || a.description == LabelN3
     || a.description == LabelRem) && IsEpochDuration(a.duration)
  }

  predicate IsRemEpoch(a: Annotation) {
    a.description == LabelRem && IsEpochDuration(a.duration)
  }

  /** Clock value at the first sleep epoch, if any. */
  function FirstSleepTime(anns: seq<Annotation>): Option<real> {
    if anns == [] then None
    else
      var prev := FirstSleepTime(anns[..|anns| - 1]);
      if prev.Some? then prev
      else if IsSleepEpoch(anns[|anns| - 1]) then Some(Elapsed(anns[..|anns| - 1]))
      else None
  }

  /** Clock value at the first REM epoch, if any. */
  function FirstRemTime(anns: seq<Annotation>): Option<real> {
    if anns == [] then None
    else
      var prev := FirstRemTime(anns[..|anns| - 1]);
      if prev.Some? then prev
      else if IsRemEpoch(anns[|anns| - 1]) then Some(Elapsed(anns[..|anns| - 1]))
      else None
  }

  /** Python truthiness of an optional number: None and 0 are false. */
  predicate Truthy(x: Option<real>) { x.Some? && x.value != 0.0 }

  datatype Latencies = Latencies(sleepOnsetLatency: Option<real>, remLatency: Option<real>)

  /** Latencies in minutes from the first sleep and first REM clock values. */
  function LatenciesOf(anns: seq<Annotation>): Latencies {
    var s := FirstSleepTime(anns);
    var r := FirstRemTime(anns);
    Latencies(
      if Truthy(s) then Some(s.value / 60.0) else None,
      if Truthy(s) && Truthy(r) then Some((r.value - s.value) / 60.0) else None)
  }

  /** The latency loop: a running clock and the first sleep and REM epochs. */
  method CalculateLatencies(anns: seq<Annotation>) returns (r: Latencies)
    ensures r == LatenciesOf(anns)
  {
    var firstSleep: Option<real> := None;
    var firstRem: Option<real> := None;
    var currentTime := 0.0;
    for i := 0 to |anns|
      invariant currentTime == Elapsed(anns[..i])
      invariant firstSleep == FirstSleepTime(anns[..i])
      invariant firstRem == FirstRemTime(anns[..i])
    {
      assert anns[..i + 1][..i] == anns[..i];
      var a := anns[i];
      if a.description == LabelN1 || a.description == LabelN2 || a.description == LabelN3
         || a.description == LabelRem {
        if firstSleep.None? && IsEpochDuration(a.duration) {
          firstSleep := Some(currentTime);
        }
      }
      if a.description == LabelRem && firstRem.None? && IsEpochDuration(a.duration) {
        firstRem := Some(currentTime);
      }
      currentTime := currentTime + a.duration;
    }
    assert anns[..|anns|] == anns;
    var onset := if firstSleep.Some? && firstSleep.value != 0.0 then Some(firstSleep.value / 60.0) else None;
    var rem := if firstSleep.Some? && firstSleep.value != 0.0 && firstRem.Some? && firstRem.value != 0.0
               then Some((firstRem.value - firstSleep.value) / 60.0) else None;
    r := Latencies(onset, rem);
  }

  predicate NonNegativeDurations(anns: seq<Annotation>) {
    forall k :: 0 <= k < |anns| ==> anns[k].duration >= 0.0
  }

  lemma {:induction false} ElapsedMonotone(anns: seq<Annotation>, i: nat)
    requires NonNegativeDurations(anns) && i <= |anns|
    ensures Elapsed(anns[..i]) <= Elapsed(anns)
    decreases |anns|
  {
    if i < |anns| {
      var p := anns[..|anns| - 1];
      assert p[..i] == anns[..i];
      ElapsedMonotone(p, i);
    } else {
      assert anns[..i] == anns;
    }
  }

  /** The first sleep epoch comes no later than the first REM epoch (a REM
      epoch is also a sleep epoch), so with non-negative durations a REM
      latency is never negative. */
  lemma {:induction false} SleepPrecedesRem(anns: seq<Annotation>)
    requires NonNegativeDurations(anns)
    requires FirstRemTime(anns).Some?
    ensures FirstSleepTime(anns).Some?
    ensures FirstSleepTime(anns).value <= FirstRemTime(anns).value
  {
    var p := anns[..|anns| - 1];
    assert NonNegativeDurations(p);
    if FirstRemTime(p).Some? {
      SleepPrecedesRem(p);
    } else {
      if FirstSleepTime(p).Some? {
        var k := FirstSleepIndex(p);
        ElapsedMonotone(p, k);
      }
    }
  }

  /** Position of the first sleep epoch and its clock value. */
  lemma {:induction false} FirstSleepAt(anns: seq<Annotation>) returns (k: nat)
    requires FirstSleepTime(anns).Some?
    ensures k < |anns| && IsSleepEpoch(anns[k])
    ensures forall j :: 0 <= j < k ==> !IsSleepEpoch(anns[j])
    ensures FirstSleepTime(anns).value == Elapsed(anns[..k])
  {
    var p := anns[..|anns| - 1];
    if FirstSleepTime(p).Some? {
      k := FirstSleepAt(p);
      assert anns[..k] == p[..k];
    } else {
      k := |anns| - 1;
      NoSleepInPrefix(p);
    }
  }

  lemma {:induction false} NoSleepInPrefix(anns: seq<Annotation>)
    requires FirstSleepTime(anns).None?
    ensures forall j :: 0 <= j < |anns| ==> !IsSleepEpoch(anns[j])
  {
    if anns != [] {
      var p := anns[..|anns| - 1];
      NoSleepInPrefix(p);
      assert forall j :: 0 <= j < |p| ==> anns[j] == p[j];
    }
  }

  /** A sleep epoch anywhere makes the first sleep time defined. */
  lemma {:induction false} SleepEpochDefinesOnset(anns: seq<Annotation>, k: nat)
    requires k < |anns| && IsSleepEpoch(anns[k])
    ensures FirstSleepTime(anns).Some?
  {
    if FirstSleepTime(anns).None? {
      NoSleepInPrefix(anns);
    }
  }

  function FirstSleepIndex(anns: seq<Annotation>): (k: nat)
    requires FirstSleepTime(anns).Some?
    ensures k < |anns|
    ensures FirstSleepTime(anns).value == Elapsed(anns[..k])
  {
    var p := anns[..|anns| - 1];
    if FirstSleepTime(p).Some? then
      var k := FirstSleepIndex(p);
      assert anns[..k] == p[..k];
      k
    else |anns| - 1
  }

  /** A first sleep epoch at clock 0 is falsy in Python: neither latency is reported. */
  lemma SleepAtZeroHidesLatencies(anns: seq<Annotation>)
    requires FirstSleepTime(anns) == Some(0.0)
    ensures LatenciesOf(anns) == Latencies(None, None)
  {
  }

  /** With non-negative durations any REM latency reported is non-negative. */
  lemma RemLatencyNonNegative(anns: seq<Annotation>)
    requires NonNegativeDurations(anns)
    requires LatenciesOf(anns).remLatency.Some?
    ensures LatenciesOf(anns).remLatency.value >= 0.0
  {
    SleepPrecedesRem(anns);
  }

  // -------------------------------------------------------------- REM quality

  datatype RemQuality = RemQuality(
    remQualityScore: int, remMinutes: real, remEvents: nat, remDensity: real, status: string)

  function TimeScore(remMinutes: real): (p: int)
    ensures p == 0 || p == 20 || p == 40
  {
    if remMinutes >= 15.0 then 40 else if remMinutes >= 5.0 then 20 else 0
  }

  function DensityScore(density: real): (p: int)
    ensures p == 0 || p == 30 || p == 60
  {
    if density >= 1.5 then 60 else if density >= 0.5 then 30 else 0
  }

  function RemStatus(score: int): string {
    if score >= 80 then "отлично" else if score >= 60 then "хорошо"
    else if score >= 40 then "удовлетворительно" else "низкое"
  }

  /** REM quality from the REM epochs and the REM point events. */
  function CalculateRemQuality(anns: seq<Annotation>): (r: RemQuality)
    ensures r.remMinutes == EpochCount(anns, REM, false) as real / 2.0
    ensures r.remEvents == CountLabel(anns, LabelRemEvent)
    ensures r.remMinutes == 0.0 ==> r.remDensity == 0.0
    ensures r.remMinutes > 0.0 ==> r.remDensity == r.remEvents as real / r.remMinutes
    ensures 0 <= r.remQualityScore <= 100
  {
    var minutes := EpochCount(anns, REM, false) as real * 0.5;
    var events := CountLabel(anns, LabelRemEvent);
    var density := if minutes > 0.0 then events as real / minutes else 0.0;
    var quality := Min(TimeScore(minutes) + DensityScore(density), 100);
    RemQuality(quality, minutes, events, density, RemStatus(quality))
  }

  /** The cap at 100 never binds, the score is one of the nine sums of a time
      and a density score, and the status follows the 80/60/40 tiers. */
  lemma RemQualityScores(anns: seq<Annotation>)
    ensures var r := CalculateRemQuality(anns);
      && r.remQualityScore == TimeScore(r.remMinutes) + DensityScore(r.remDensity)
      && r.remQualityScore in {0, 20, 30, 40, 50, 60, 70, 80, 100}
      && (r.status == "отлично" <==> r.remQualityScore >= 80)
      && (r.status == "хорошо" <==> 60 <= r.remQualityScore < 80)
      && (r.status == "удовлетворительно" <==> 40 <= r.remQualityScore < 60)
      && (r.status == "низкое" <==> r.remQualityScore < 40)
  {
    var r := CalculateRemQuality(anns);
    var ts := TimeScore(r.remMinutes);
    var ds := DensityScore(r.remDensity);
    assert ts + ds <= 100;
    if ts == 0 {
      assert r.remQualityScore in {0, 30, 60};
    } else if ts == 20 {
      assert r.remQualityScore in {20, 50, 80};
    } else {
      assert r.remQualityScore in {40, 70, 100};
    }
  }

  /** REM epochs are counted the same way whether or not an Unknown bucket exists. */
  lemma {:induction false} RemCountIgnoresUnknown(anns: seq<Annotation>)
    ensures EpochCount(anns, REM, true) == EpochCount(anns, REM, false)
  {
    if anns != [] {
      RemCountIgnoresUnknown(anns[..|anns| - 1]);
    }
  }

  /** The REM minutes of the quality score agree with the stage table. */
  lemma RemQualityMatchesTable(t: StageTable, anns: seq<Annotation>, withUnknown: bool)
    requires IsTallyOf(t, anns, withUnknown)
    ensures CalculateRemQuality(anns).remMinutes == t[REM].minutes
  {
    RemCountIgnoresUnknown(anns);
  }
}
