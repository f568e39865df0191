/** The composite sleep-quality score: tiered bonuses for efficiency, deep and
    REM sleep, breathing and arousals, a share of the REM-quality score, a
    heart-rate penalty and a REM-cycle bonus, capped at 100 and mapped to one of
    four words. */
module Scoring {
  import opened Base
  import opened Staging
  import opened Events

  /** Threshold/points pairs in the order the configuration dictionaries list them. */
  const EfficiencyWeights: seq<(real, int)> := [(85.0, 25), (70.0, 20), (50.0, 10)]
  const AhiWeights: seq<(real, int)> := [(5.0, 30), (15.0, 20), (30.0, 10)]
  const ArousalWeights: seq<(real, int)> := [(10.0, 15), (20.0, 10)]
  const N3Threshold: real := 15.0
  const RemThreshold: real := 20.0

  /** A tier test: `value >= threshold` for bonuses that reward high values,
      `value < threshold` for those that reward low ones. */
  predicate Passes(value: real, threshold: real, atLeast: bool) {
    if atLeast then value >= threshold else value < threshold
  }

  /** Points of the first tier whose test passes, 0 when none does. */
  function TierPoints(value: real, weights: seq<(real, int)>, atLeast: bool): int {
    if weights == [] then 0
    else if Passes(value, weights[0].0, atLeast) then weights[0].1
    else TierPoints(value, weights[1..], atLeast)
  }

  /** The tier loop: walks the pairs and stops at the first passing test. */
  method FirstTier(value: real, weights: seq<(real, int)>, atLeast: bool) returns (points: int)
    ensures points == TierPoints(value, weights, atLeast)
  {
    points := 0;
    var i := 0;
    while i < |weights|
      invariant 0 <= i <= |weights|
      invariant TierPoints(value, weights, atLeast) == TierPoints(value, weights[i..], atLeast)
    {
      assert weights[i..][1..] == weights[i + 1..];
      if Passes(value, weights[i].0, atLeast) {
        points := weights[i].1;
        return;
      }
      i := i + 1;
    }
  }

  // The if-chains of the function-based version.

  function EfficiencyPoints(e: real): int {
    if e >= 85.0 then 25 else if e >= 70.0 then 20 else if e >= 50.0 then 10 else 0
  }

  function AhiPoints(ahi: real): int {
    if ahi < 5.0 then 30 else if ahi < 15.0 then 20 else if ahi < 30.0 then 10 else 0
  }

  function ArousalPoints(a: real): int {
    if a < 10.0 then 15 else if a < 20.0 then 10 else 0
  }

  /** The tier loops over the configured weights give the same points as the
      if-chains, for every value. */
  lemma TierLoopsMatchChains(e: real, ahi: real, arousal: real)
    ensures TierPoints(e, EfficiencyWeights, true) == EfficiencyPoints(e)
    ensures TierPoints(ahi, AhiWeights, false) == AhiPoints(ahi)
    ensures TierPoints(arousal, ArousalWeights, false) == ArousalPoints(arousal)
  {
    var w := EfficiencyWeights;
    assert w[1..][1..][1..] == [];
    assert TierPoints(e, w[1..][1..], true) == if e >= 50.0 then 10 else 0;
    assert TierPoints(e, w[1..], true) == if e >= 70.0 then 20 else if e >= 50.0 then 10 else 0;
    var v := AhiWeights;
    assert v[1..][1..][1..] == [];
    assert TierPoints(ahi, v[1..][1..], false) == if ahi < 30.0 then 10 else 0;
    assert TierPoints(ahi, v[1..], false) == if ahi < 15.0 then 20 else if ahi < 30.0 then 10 else 0;
    var u := ArousalWeights;
    assert u[1..][1..] == [];
    assert TierPoints(arousal, u[1..], false) == if arousal < 20.0 then 10 else 0;
  }

  /** The heart-rate penalty.  The batch version also looks at bradycardia. */
  function HeartRatePenalty(tachycardia: nat, bradycardia: nat, countsBradycardia: bool): (p: int)
    ensures p == 0 || p == 5 || p == 10 || p == 15
  {
    var b := if countsBradycardia then bradycardia else 0;
    if tachycardia > 10 || b > 10 then 15
    else if tachycardia > 5 || b > 5 then 10
    else if tachycardia > 0 || b > 0 then 5
    else 0
  }

  function CycleBonus(cycles: nat): (p: int)
    ensures p == 0 || p == 5 || p == 10
  {
    if cycles >= 4 then 10 else if cycles >= 3 then 5 else 0
  }

  /** What the score reads from the other analyses, with the dictionary defaults
      (0) filled in for missing values. */
  datatype QualityInputs = QualityInputs(
    efficiency: real, n3Percentage: real, remPercentage: real, ahi: real, arousalIndex: real,
    remScore: int, tachycardiaEvents: nat, bradycardiaEvents: nat, remCycles: nat)

  /** Collects the inputs; an architecture that raised makes the whole score raise. */
  function GatherInputs(eff: Efficiency, arch: Result<Option<Architecture>>, indices: Option<SleepIndices>,
                        frag: Fragmentation, rem: RemQuality, tachycardia: nat, bradycardia: nat, cycles: nat)
    : (r: Result<QualityInputs>)
    ensures r.Err? <==> arch.Err?
    ensures r.Ok? ==> (indices.None? ==> r.value.ahi == 0.0) && r.value.remScore == rem.remQualityScore
    ensures r.Ok? && arch.value.None? ==> r.value.n3Percentage == 0.0 && r.value.remPercentage == 0.0
  {
    if arch.Err? then Err(arch.error)
    else
      var n3 := if arch.value.Some? then arch.value.value.n3Percentage else 0.0;
      var remPct := if arch.value.Some? then arch.value.value.remPercentage else 0.0;
      var ahi := if indices.Some? then indices.value.ahi else 0.0;
      Ok(QualityInputs(eff.sleepEfficiency, n3, remPct, ahi, frag.arousalIndex, rem.remQualityScore,
                       tachycardia, bradycardia, cycles))
  }

  /** The score before the cap: with a REM-quality score in [0, 100] it lies in
      [-15, 125], the heart-rate penalty being the only negative part. */
  function RawScore(x: QualityInputs, countsBradycardia: bool): (s: real)
    ensures 0 <= x.remScore <= 100 ==> -15.0 <= s <= 125.0
  {
    TierPointsBounds(x.efficiency, EfficiencyWeights, true, 25);
    TierPointsBounds(x.ahi, AhiWeights, false, 30);
    TierPointsBounds(x.arousalIndex, ArousalWeights, false, 15);
    (TierPoints(x.efficiency, EfficiencyWeights, true)
     + (if x.n3Percentage >= N3Threshold then 15 else 0)
     + (if x.remPercentage >= RemThreshold then 15 else 0)
     + TierPoints(x.ahi, AhiWeights, false)
     + TierPoints(x.arousalIndex, ArousalWeights, false)) as real
    + x.remScore as real * 0.15
    - HeartRatePenalty(x.tachycardiaEvents, x.bradycardiaEvents, countsBradycardia) as real
    + CycleBonus(x.remCycles) as real
  }

  function QualityStatus(score: real): string {
    if score >= 85.0 then "отличное" else if score >= 70.0 then "хорошее"
    else if score >= 50.0 then "удовлетворительное" else "плохое"
  }

  datatype Quality = Quality(overallScore: int, status: string)

  function RealMin(a: real, b: real): real { if a <= b then a else b }

  /** Accumulates the score step by step, caps it at 100, keeps the integer part
      and names the tier. */
  method CalculateOverallQuality(x: QualityInputs, countsBradycardia: bool) returns (q: Quality)
    ensures q.overallScore == Trunc(RealMin(RawScore(x, countsBradycardia), 100.0))
    ensures q.status == QualityStatus(RealMin(RawScore(x, countsBradycardia), 100.0))
  {
    var score: real := 0.0;
    var points := FirstTier(x.efficiency, EfficiencyWeights, true);
    score := score + points as real;
    if x.n3Percentage >= N3Threshold {
      score := score + 15.0;
    }
    if x.remPercentage >= RemThreshold {
      score := score + 15.0;
    }
    points := FirstTier(x.ahi, AhiWeights, false);
    score := score + points as real;
    points := FirstTier(x.arousalIndex, ArousalWeights, false);
    score := score + points as real;
    score := score + x.remScore as real * 0.15;
    score := score - HeartRatePenalty(x.tachycardiaEvents, x.bradycardiaEvents, countsBradycardia) as real;
    score := score + CycleBonus(x.remCycles) as real;
    var overall := RealMin(score, 100.0);
    q := Quality(Trunc(overall), QualityStatus(overall));
  }

  lemma {:induction false} TierPointsBounds(value: real, weights: seq<(real, int)>, atLeast: bool, top: int)
    requires forall k :: 0 <= k < |weights| ==> 0 <= weights[k].1 <= top
    requires top >= 0
    ensures 0 <= TierPoints(value, weights, atLeast) <= top
  {
    if weights != [] {
      TierPointsBounds(value, weights[1..], atLeast, top);
    }
  }

  /** With a REM-quality score in [0, 100] the raw score lies in [-15, 125]; the
      capped score never exceeds 100 and has no lower clamp, and the integer part
      is taken toward zero. */
  lemma ScoreBounds(x: QualityInputs, countsBradycardia: bool)
    requires 0 <= x.remScore <= 100
    ensures -15.0 <= RawScore(x, countsBradycardia) <= 125.0
    ensures Trunc(RealMin(RawScore(x, countsBradycardia), 100.0)) <= 100
    ensures Trunc(RealMin(RawScore(x, countsBradycardia), 100.0)) >= -15
  {
    TierPointsBounds(x.efficiency, EfficiencyWeights, true, 25);
    TierPointsBounds(x.ahi, AhiWeights, false, 30);
    TierPointsBounds(x.arousalIndex, ArousalWeights, false, 15);
  }

  /** A night with the worst inputs scores -15, below the 0 a percentage would
      suggest: the cap is one-sided. */
  lemma NoLowerClamp()
    ensures var x := QualityInputs(0.0, 0.0, 0.0, 30.0, 20.0, 0, 11, 0, 0);
      RawScore(x, false) == -15.0 && Trunc(RealMin(RawScore(x, false), 100.0)) == -15
      && QualityStatus(RealMin(RawScore(x, false), 100.0)) == "плохое"
  {
    var x := QualityInputs(0.0, 0.0, 0.0, 30.0, 20.0, 0, 11, 0, 0);
    TierLoopsMatchChains(x.efficiency, x.ahi, x.arousalIndex);
  }

  /** Without sleep the indices dictionary is empty, so the AHI defaults to 0 and
      the best breathing tier (+30) is awarded. */
  lemma NoSleepEarnsBreathingBonus(eff: Efficiency, arch: Result<Option<Architecture>>, frag: Fragmentation,
                                   rem: RemQuality, tachycardia: nat, bradycardia: nat, cycles: nat)
    requires arch.Ok?
    ensures var x := GatherInputs(eff, arch, None, frag, rem, tachycardia, bradycardia, cycles).value;
      TierPoints(x.ahi, AhiWeights, false) == 30
  {
  }

  /** The status word follows the tiers 85, 70 and 50 of the capped score. */
  lemma StatusTiers(score: real)
    ensures QualityStatus(score) == "отличное" <==> score >= 85.0
    ensures QualityStatus(score) == "хорошее" <==> 70.0 <= score < 85.0
    ensures QualityStatus(score) == "удовлетворительное" <==> 50.0 <= score < 70.0
    ensures QualityStatus(score) == "плохое" <==> score < 50.0
  {
  }

  /** The batch version's penalty is never smaller than the tachycardia-only one,
      and the two agree when no bradycardia was counted. */
  lemma PenaltyVersions(tachycardia: nat, bradycardia: nat)
    ensures HeartRatePenalty(tachycardia, bradycardia, true) >= HeartRatePenalty(tachycardia, bradycardia, false)
    ensures bradycardia == 0 ==>
      HeartRatePenalty(tachycardia, bradycardia, true) == HeartRatePenalty(tachycardia, bradycardia, false)
  {
  }
}
