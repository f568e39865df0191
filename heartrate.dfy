/** Heart-rate logic around the R-peak detector: RR intervals and rates kept
    inside physiological bands, the tachycardia/bradycardia episode counter,
    the fallback that counts heart-rhythm markers, and the SpO2 sample counts. */
module HeartRate {
  import opened Base
  import opened Annotations
  import opened Settings

  // ------------------------------------------------------------- filtering

  predicate RrInBand(rr: real) { RrMin < rr < RrMax }
  predicate HrInBand(hr: real) { HrMin <= hr <= HrMax }

  /** `np.diff(r_peaks) / sfreq`: the RR intervals in seconds. */
  function RrIntervals(peaks: seq<int>, sfreq: real): (rr: seq<real>)
    requires sfreq > 0.0
    ensures |rr| == if peaks == [] then 0 else |peaks| - 1
  {
    if peaks == [] then []
    else seq(|peaks| - 1, i requires 0 <= i < |peaks| - 1 => (peaks[i + 1] - peaks[i]) as real / sfreq)
  }

  /** `60 / rr` for every interval. */
  function RatesOf(rr: seq<real>): (hr: seq<real>)
    requires forall k :: 0 <= k < |rr| ==> rr[k] > 0.0
    ensures |hr| == |rr|
  {
    seq(|rr|, i requires 0 <= i < |rr| => 60.0 / rr[i])
  }

  /** `_calculate_heart_rate_metrics`: RR intervals kept strictly inside (0.3, 2.0) s;
      with more than one of them, the rates they give kept inside [40, 150] bpm;
      otherwise both lists are empty. */
  function HeartRateMetrics(peaks: seq<int>, sfreq: real): (r: (seq<real>, seq<real>))
    requires sfreq > 0.0
    ensures forall k :: 0 <= k < |r.0| ==> RrInBand(r.0[k])
    ensures forall k :: 0 <= k < |r.1| ==> HrInBand(r.1[k])
    ensures |r.0| != 1 && |r.1| <= |r.0| < |peaks| + 1
    ensures r.0 == [] ==> r.1 == []
  {
    var valid := Filter(RrIntervals(peaks, sfreq), RrInBand);
    if |valid| > 1 then (valid, Filter(RatesOf(valid), HrInBand)) else ([], [])
  }

  /** The kept intervals are exactly the in-band ones, the kept rates lie in the rate
      band and each comes from a kept interval; both are empty when at most one
      interval is in band. */
  lemma MetricsBands(peaks: seq<int>, sfreq: real, x: real)
    requires sfreq > 0.0
    ensures var (rr, hr) := HeartRateMetrics(peaks, sfreq);
      var valid := Filter(RrIntervals(peaks, sfreq), RrInBand);
      (|valid| <= 1 <==> rr == [] && hr == [])
      && (|valid| > 1 ==> multiset(rr)[x] == if RrInBand(x) then multiset(RrIntervals(peaks, sfreq))[x] else 0)
      && (forall k :: 0 <= k < |rr| ==> RrMin < rr[k] < RrMax)
      && (forall k :: 0 <= k < |hr| ==> HrMin <= hr[k] <= HrMax && exists j :: 0 <= j < |rr| && hr[k] == 60.0 / rr[j])
  {
    var rrs := RrIntervals(peaks, sfreq);
    var valid := Filter(rrs, RrInBand);
    FilterKeepsExactly(rrs, RrInBand, x);
    if |valid| > 1 {
      var rates := RatesOf(valid);
      var hr := Filter(rates, HrInBand);
      forall k | 0 <= k < |hr|
        ensures exists j :: 0 <= j < |valid| && hr[k] == 60.0 / valid[j]
      {
        FilterSelects(rates, HrInBand, k);
      }
    }
  }

  // -------------------------------------------------------------- episodes

  /** Length of the run of set flags at the end of `b`. */
  function TrailingRun(b: seq<bool>): (r: nat)
    ensures r <= |b|
  {
    if b == [] || !b[|b| - 1] then 0 else TrailingRun(b[..|b| - 1]) + 1
  }

  /** Episodes as the counter loop sees them: one each time a run reaches the
      minimum length (at least one sample). */
  function Episodes(b: seq<bool>, minRun: nat): (n: nat)
    ensures n <= |b|
  {
    if b == [] then 0
    else Episodes(b[..|b| - 1], minRun) + (if b[|b| - 1] && TrailingRun(b) == Max(minRun, 1) then 1 else 0)
  }

  /** Reference count, run by run from the end: the maximal runs of set flags whose
      length is at least `minRun`. */
  function RunsAtLeast(b: seq<bool>, minRun: nat): (n: nat)
    decreases |b|
  {
    if b == [] then 0
    else if !b[|b| - 1] then RunsAtLeast(b[..|b| - 1], minRun)
    else
      var len := TrailingRun(b);
      RunsAtLeast(b[..|b| - len], minRun) + (if len >= minRun then 1 else 0)
  }

  /** The trailing run is all set and is preceded by an unset flag or the start. */
  lemma {:induction false} TrailingRunShape(b: seq<bool>)
    ensures forall k :: |b| - TrailingRun(b) <= k < |b| ==> b[k]
    ensures |b| - TrailingRun(b) == 0 || !b[|b| - TrailingRun(b) - 1]
  {
    if b != [] && b[|b| - 1] {
      var init := b[..|b| - 1];
      TrailingRunShape(init);
      assert forall k :: 0 <= k < |init| ==> init[k] == b[k];
    }
  }

  function Set(j: nat): (t: seq<bool>)
    ensures |t| == j && forall k :: 0 <= k < j ==> t[k]
  {
    seq(j, _ => true)
  }

  /** A run of set flags from position p to the end, after an unset flag (or at the
      start), is the trailing run, and it opens one episode once it reaches the
      minimum. */
  lemma {:induction false} EpisodesOfRun(b: seq<bool>, p: nat, minRun: nat)
    requires p <= |b| && (p == 0 || !b[p - 1])
    requires forall k :: p <= k < |b| ==> b[k]
    ensures TrailingRun(b) == |b| - p
    ensures Episodes(b, minRun) == Episodes(b[..p], minRun) + (if |b| - p >= 1 && |b| - p >= minRun then 1 else 0)
    decreases |b| - p
  {
    if |b| == p {
      assert b[..p] == b;
    } else {
      var init := b[..|b| - 1];
      assert init[..p] == b[..p];
      assert p == 0 || !init[p - 1];
      EpisodesOfRun(init, p, minRun);
      RunReachesMinimumOnce(|b| - p, minRun);
    }
  }

  lemma RunReachesMinimumOnce(j: nat, minRun: nat)
    requires j >= 1
    ensures (if j - 1 >= 1 && j - 1 >= minRun then 1 else 0) + (if j == Max(minRun, 1) then 1 else 0)
      == (if j >= minRun then 1 else 0)
  {
  }

  /** The counter loop's count is the number of maximal runs at least `minRun` long
      (and at least one long, which every run is). */
  lemma {:induction false} EpisodesAreLongRuns(b: seq<bool>, minRun: nat)
    ensures Episodes(b, minRun) == RunsAtLeast(b, minRun)
    decreases |b|
  {
    if b == [] {
    } else if !b[|b| - 1] {
      EpisodesAreLongRuns(b[..|b| - 1], minRun);
    } else {
      var len := TrailingRun(b);
      var pre := b[..|b| - len];
      TrailingRunShape(b);
      EpisodesOfRun(b, |b| - len, minRun);
      EpisodesAreLongRuns(pre, minRun);
    }
  }

  /** A longer minimum never counts more episodes. */
  lemma {:induction false} LongerMinimumFewerEpisodes(b: seq<bool>, k1: nat, k2: nat)
    requires k1 <= k2
    ensures RunsAtLeast(b, k2) <= RunsAtLeast(b, k1)
    decreases |b|
  {
    if b != [] {
      if !b[|b| - 1] {
        LongerMinimumFewerEpisodes(b[..|b| - 1], k1, k2);
      } else {
        LongerMinimumFewerEpisodes(b[..|b| - TrailingRun(b)], k1, k2);
      }
    }
  }

  function Above(hrs: seq<real>, threshold: real): (b: seq<bool>)
    ensures |b| == |hrs|
  {
    seq(|hrs|, i requires 0 <= i < |hrs| => hrs[i] > threshold)
  }

  function Below(hrs: seq<real>, threshold: real): (b: seq<bool>)
    ensures |b| == |hrs|
  {
    seq(|hrs|, i requires 0 <= i < |hrs| => hrs[i] < threshold)
  }

  /** The hysteresis counter: a run of rates above 100 (below 50) opens an episode
      once `minConsecutive` samples long, and any other rate closes it. With a
      minimum of 1 an episode opens on the first sample, as in the first version. */
  method DetectHeartRateEpisodes(hrs: seq<real>, minConsecutive: nat) returns (tachycardia: nat, bradycardia: nat)
    ensures tachycardia == Episodes(Above(hrs, TachycardiaThreshold), minConsecutive)
    ensures bradycardia == Episodes(Below(hrs, BradycardiaThreshold), minConsecutive)
  {
    ghost var up := Above(hrs, TachycardiaThreshold);
    ghost var down := Below(hrs, BradycardiaThreshold);
    tachycardia, bradycardia := 0, 0;
    var tachyCount, bradyCount := 0, 0;
    var tachyEpisode, bradyEpisode := false, false;
    for i := 0 to |hrs|
      invariant tachyCount == TrailingRun(up[..i]) && tachyEpisode == (tachyCount >= Max(minConsecutive, 1))
      invariant bradyCount == TrailingRun(down[..i]) && bradyEpisode == (bradyCount >= Max(minConsecutive, 1))
      invariant tachycardia == Episodes(up[..i], minConsecutive)
      invariant bradycardia == Episodes(down[..i], minConsecutive)
    {
      var hr := hrs[i];
      tachyCount, tachyEpisode, tachycardia :=
        Track(up, i, hr > TachycardiaThreshold, tachyCount, tachyEpisode, tachycardia, minConsecutive);
      bradyCount, bradyEpisode, bradycardia :=
        Track(down, i, hr < BradycardiaThreshold, bradyCount, bradyEpisode, bradycardia, minConsecutive);
    }
    assert up[..|hrs|] == up;
    assert down[..|hrs|] == down;
  }

  /** One sample of one counter: a hit lengthens the run and opens an episode
      when the run reaches the minimum; a miss resets the run and closes it. */
  method Track(ghost b: seq<bool>, i: nat, hit: bool, count: nat, episode: bool, episodes: nat, minConsecutive: nat)
    returns (count': nat, episode': bool, episodes': nat)
    requires i < |b| && hit == b[i]
    requires count == TrailingRun(b[..i]) && episode == (count >= Max(minConsecutive, 1))
    requires episodes == Episodes(b[..i], minConsecutive)
    ensures count' == TrailingRun(b[..i + 1]) && episode' == (count' >= Max(minConsecutive, 1))
    ensures episodes' == Episodes(b[..i + 1], minConsecutive)
  {
    assert b[..i + 1][..i] == b[..i];
    count', episode', episodes' := count, episode, episodes;
    if hit {
      count' := count + 1;
      if count' >= minConsecutive && !episode {
        episodes' := episodes + 1;
        episode' := true;
      }
    } else {
      count' := 0;
      episode' := false;
    }
  }

  /** Ten fast beats make one tachycardia episode under the minimum of 10; nine
      do not; under a minimum of 1 two separated fast beats are two episodes. */
  lemma EpisodeExamples()
    ensures RunsAtLeast(Set(10), 10) == 1
    ensures RunsAtLeast(Set(9), 10) == 0
    ensures RunsAtLeast([true, false, true], 1) == 2
  {
    assert TrailingRun(Set(10)) == 10 by { EpisodesOfRun(Set(10), 0, 10); }
    assert Set(10)[..0] == [];
    assert TrailingRun(Set(9)) == 9 by { EpisodesOfRun(Set(9), 0, 10); }
    assert Set(9)[..0] == [];
    var b := [true, false, true];
    assert TrailingRun(b) == 1 by { assert b[..2] == [true, false]; }
    assert b[..2] == [true, false];
    assert b[..2][..1] == [true];
    assert [true][..0] == [];
  }

  // ---------------------------------------------------------- the fallback

  /** What the heart-rate analysis reports. */
  datatype HeartRateSummary = HeartRateSummary(
    avgHeartRate: Option<real>, minHeartRate: Option<real>, maxHeartRate: Option<real>,
    heartRateVariability: Option<real>, artifactRegionsExcluded: nat,
    tachycardiaEvents: nat, bradycardiaEvents: nat, analysisMethod: string)

  /** Labels naming bradycardia but not tachycardia (the `elif` branch). */
  function CountBradycardiaOnly(anns: seq<Annotation>): (n: nat)
    ensures n <= |anns|
  {
    if anns == [] then 0
    else
      var d := anns[|anns| - 1].description;
      CountBradycardiaOnly(anns[..|anns| - 1])
      + (if !Contains(d, TachycardiaWord) && Contains(d, BradycardiaWord) then 1 else 0)
  }

  /** The summary the marker fallback reports: no rates, nothing excluded, and
      the rhythm labels counted, a label naming both words as tachycardia. */
  function MarkerSummary(anns: seq<Annotation>): HeartRateSummary {
    HeartRateSummary(None, None, None, None, 0, CountContaining(anns, TachycardiaWord),
                     CountBradycardiaOnly(anns), "markers")
  }

  /** `_analyze_heart_rate_from_markers`: no rates, and the rhythm labels counted. */
  method AnalyzeFromMarkers(anns: seq<Annotation>) returns (r: HeartRateSummary)
    ensures r == MarkerSummary(anns)
    ensures r.analysisMethod == "markers" && r.avgHeartRate.None? && r.minHeartRate.None?
    ensures r.maxHeartRate.None? && r.heartRateVariability.None? && r.artifactRegionsExcluded == 0
    ensures r.tachycardiaEvents == CountContaining(anns, TachycardiaWord)
    ensures r.bradycardiaEvents == CountBradycardiaOnly(anns)
  {
    var tachy, brady := 0, 0;
    for i := 0 to |anns|
      invariant tachy == CountContaining(anns[..i], TachycardiaWord)
      invariant brady == CountBradycardiaOnly(anns[..i])
    {
      assert anns[..i + 1][..i] == anns[..i];
      var d := anns[i].description;
      if Contains(d, TachycardiaWord) {
        tachy := tachy + 1;
      } else if Contains(d, BradycardiaWord) {
        brady := brady + 1;
      }
    }
    assert anns[..|anns|] == anns;
    r := HeartRateSummary(None, None, None, None, 0, tachy, brady, "markers");
  }

  /** Each label is counted at most once, so the two counts never exceed the
      number of annotations. */
  lemma {:induction false} MarkerCountsDisjoint(anns: seq<Annotation>)
    ensures CountContaining(anns, TachycardiaWord) + CountBradycardiaOnly(anns) <= |anns|
  {
    if anns != [] {
      MarkerCountsDisjoint(anns[..|anns| - 1]);
    }
  }

  /** `analyze_heart_rate_comprehensive`: the detector's peaks, when there is an
      ECG channel with data, are used only when more than 100 were found and more
      than five rates survive the bands; the summary statistics come from the
      numeric library and are a parameter. Otherwise the marker fallback answers. */
  method AnalyzeHeartRate(peaks: Option<seq<int>>, sfreq: real, anns: seq<Annotation>, regionsExcluded: nat,
                          minConsecutive: nat, stats: (seq<real>, seq<real>) -> (real, real, real, real))
    returns (r: HeartRateSummary)
    requires sfreq > 0.0
    ensures r.analysisMethod == "ecg" <==>
      peaks.Some? && |peaks.value| > 100 && |HeartRateMetrics(peaks.value, sfreq).1| > 5
    ensures r.analysisMethod == "ecg" ==>
      var hr := HeartRateMetrics(peaks.value, sfreq).1;
      r.tachycardiaEvents == RunsAtLeast(Above(hr, TachycardiaThreshold), minConsecutive)
      && r.bradycardiaEvents == RunsAtLeast(Below(hr, BradycardiaThreshold), minConsecutive)
      && r.artifactRegionsExcluded == regionsExcluded
    ensures r.analysisMethod == "ecg" ==>
      var (rr, hr) := HeartRateMetrics(peaks.value, sfreq);
      var (avg, lo, hi, hrv) := stats(hr, rr);
      r.avgHeartRate == Some(avg) && r.minHeartRate == Some(lo) && r.maxHeartRate == Some(hi)
      && r.heartRateVariability == Some(hrv)
    ensures r.analysisMethod != "ecg" ==> r == MarkerSummary(anns)
  {
    if peaks.None? || |peaks.value| <= 100 {
      r := AnalyzeFromMarkers(anns);
      return;
    }
    var (rr, hr) := HeartRateMetrics(peaks.value, sfreq);
    if |hr| > 5 {
      var (avg, lo, hi, hrv) := stats(hr, rr);
      var tachy, brady := DetectHeartRateEpisodes(hr, minConsecutive);
      EpisodesAreLongRuns(Above(hr, TachycardiaThreshold), minConsecutive);
      EpisodesAreLongRuns(Below(hr, BradycardiaThreshold), minConsecutive);
      r := HeartRateSummary(Some(avg), Some(lo), Some(hi), Some(hrv), regionsExcluded, tachy, brady, "ecg");
    } else {
      r := AnalyzeFromMarkers(anns);
    }
  }

  // ------------------------------------------------------------------ SpO2

  /** A plausible oxygen saturation reading. */
  predicate ValidSpo2(v: real) { Spo2MinValid <= v <= Spo2MaxValid }

  /** Valid, unmasked samples strictly below `threshold`. */
  function SamplesBelow(values: seq<real>, mask: seq<bool>, threshold: real): (n: nat)
    requires |mask| == |values|
    ensures n <= |values|
  {
    if values == [] then 0
    else
      var v := values[|values| - 1];
      SamplesBelow(values[..|values| - 1], mask[..|mask| - 1], threshold)
      + (if v < threshold && mask[|mask| - 1] && ValidSpo2(v) then 1 else 0)
  }

  /** A lower threshold never counts more samples; in particular the samples below
      90% are at least those below 85%. */
  lemma {:induction false} SamplesBelowMonotone(values: seq<real>, mask: seq<bool>, lo: real, hi: real)
    requires |mask| == |values| && lo <= hi
    ensures SamplesBelow(values, mask, lo) <= SamplesBelow(values, mask, hi)
  {
    if values != [] {
      SamplesBelowMonotone(values[..|values| - 1], mask[..|mask| - 1], lo, hi);
    }
  }

  lemma Below90AtLeastBelow85(values: seq<real>, mask: seq<bool>)
    requires |mask| == |values|
    ensures SamplesBelow(values, mask, Spo2Threshold85) <= SamplesBelow(values, mask, Spo2Threshold90)
  {
    SamplesBelowMonotone(values, mask, Spo2Threshold85, Spo2Threshold90);
  }
}
