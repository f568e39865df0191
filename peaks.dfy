/** The hand-written parts of the R-peak detector: the sliding-window adaptive
    threshold, the greedy peak picker with a minimum spacing, the amplitude
    check, and the merging of peaks found segment by segment. Filtering,
    squaring, the median filter and the percentiles come from the numeric
    library and enter as inputs or function parameters. */
module Peaks {
  import opened Base
  import opened Segments

  // ------------------------------------------------------------ picking

  /** Sample i rises above its threshold and above both neighbours (an edge
      sample needs only its one neighbour). */
  predicate IsCandidate(sm: seq<real>, th: seq<real>, i: int)
    requires |th| == |sm|
  {
    0 <= i < |sm| && sm[i] > th[i]
    && (i == 0 || sm[i] > sm[i - 1])
    && (i == |sm| - 1 || sm[i] > sm[i + 1])
  }

  /** The peaks the loop has accepted among the first m samples: a candidate is
      taken when it is the first or lies at least `minDistance` after the last
      one taken. */
  function Picked(sm: seq<real>, th: seq<real>, minDistance: int, m: nat): (ps: seq<int>)
    requires |th| == |sm| && m <= |sm|
    ensures |ps| <= m
    ensures forall k :: 0 <= k < |ps| ==> 0 <= ps[k] < m
  {
    if m == 0 then []
    else
      var prev := Picked(sm, th, minDistance, m - 1);
      if IsCandidate(sm, th, m - 1) && (prev == [] || (m - 1) - prev[|prev| - 1] >= minDistance)
      then prev + [m - 1] else prev
  }

  predicate StrictlyIncreasing(ps: seq<int>) {
    forall a, b :: 0 <= a < b < |ps| ==> ps[a] < ps[b]
  }

  /** The peak loop of the detector. */
  method PickPeaks(sm: seq<real>, th: seq<real>, minDistance: int) returns (peaks: seq<int>)
    requires |th| == |sm|
    ensures peaks == Picked(sm, th, minDistance, |sm|)
  {
    peaks := [];
    for i := 0 to |sm|
      invariant peaks == Picked(sm, th, minDistance, i)
    {
      if sm[i] > th[i] && (i == 0 || sm[i] > sm[i - 1]) && (i == |sm| - 1 || sm[i] > sm[i + 1]) {
        if |peaks| == 0 || i - peaks[|peaks| - 1] >= minDistance {
          peaks := peaks + [i];
        }
      }
    }
  }

  /** The accepted peaks are strictly increasing, each is a candidate, and
      consecutive ones lie at least `minDistance` apart. */
  lemma {:induction false} PickedSound(sm: seq<real>, th: seq<real>, minDistance: int, m: nat)
    requires |th| == |sm| && m <= |sm|
    ensures var ps := Picked(sm, th, minDistance, m);
      StrictlyIncreasing(ps)
      && (forall k :: 0 <= k < |ps| ==> IsCandidate(sm, th, ps[k]))
      && (forall k :: 0 <= k < |ps| - 1 ==> ps[k + 1] - ps[k] >= minDistance)
  {
    if m > 0 {
      PickedSound(sm, th, minDistance, m - 1);
    }
  }

  /** Every candidate left out lies closer than `minDistance` after an accepted
      peak: the choice is greedy, first come first kept. */
  lemma {:induction false} PickedGreedy(sm: seq<real>, th: seq<real>, minDistance: int, m: nat, i: nat)
    requires |th| == |sm| && i < m <= |sm|
    requires IsCandidate(sm, th, i) && i !in Picked(sm, th, minDistance, m)
    ensures var ps := Picked(sm, th, minDistance, m);
      exists k :: 0 <= k < |ps| && ps[k] < i && i - ps[k] < minDistance
  {
    var prev := Picked(sm, th, minDistance, m - 1);
    var ps := Picked(sm, th, minDistance, m);
    assert prev <= ps;
    if i < m - 1 {
      assert i !in prev;
      PickedGreedy(sm, th, minDistance, m - 1, i);
      var k :| 0 <= k < |prev| && prev[k] < i && i - prev[k] < minDistance;
      assert ps[k] == prev[k];
    } else {
      assert ps == prev;
      assert prev != [] && (m - 1) - prev[|prev| - 1] < minDistance;
      assert ps[|ps| - 1] < i;
    }
  }

  /** Greed keeps the first of two close peaks, not the higher one. */
  lemma FirstNotHighest()
    ensures Picked([0.0, 5.0, 0.0, 9.0, 0.0], [1.0, 1.0, 1.0, 1.0, 1.0], 3, 5) == [1]
  {
    var sm := [0.0, 5.0, 0.0, 9.0, 0.0];
    var th := [1.0, 1.0, 1.0, 1.0, 1.0];
    assert Picked(sm, th, 3, 1) == [];
    assert IsCandidate(sm, th, 1);
    assert Picked(sm, th, 3, 2) == [1];
    assert Picked(sm, th, 3, 3) == [1];
    assert Picked(sm, th, 3, 4) == [1];
  }

  // ----------------------------------------------------- adaptive threshold

  /** The window that starts at `start`, cut at the end of the signal. */
  function Window(sm: seq<real>, w: nat, start: nat): seq<real>
    requires start <= |sm|
  {
    sm[start..Min(start + w, |sm|)]
  }

  /** Start of the last window covering sample j: windows start at multiples of
      the overlap, half the window. */
  function WindowStart(j: nat, overlap: nat): (s: nat)
    requires overlap > 0
    ensures s <= j < s + overlap
  {
    (j / overlap) * overlap
  }

  /** The threshold of sample j: the percentile of the last window covering it, or
      of the whole signal when it is shorter than one window. */
  function ThresholdAt(sm: seq<real>, w: nat, pct: seq<real> -> real, j: nat): real
    requires w >= 2 && j < |sm|
  {
    if |sm| < w then pct(sm) else pct(Window(sm, w, WindowStart(j, w / 2)))
  }

  /** What sample j holds once the windows starting before i have been filled. */
  function Partial(sm: seq<real>, w: nat, pct: seq<real> -> real, i: nat, j: nat): real
    requires w >= 2 && j < |sm|
  {
    if j < i then pct(Window(sm, w, WindowStart(j, w / 2)))
    else if i > 0 && i - w / 2 >= 0 && j < Min(i - w / 2 + w, |sm|) then pct(Window(sm, w, i - w / 2))
    else 0.0
  }

  /** Filling the window at i moves the partial picture on by one overlap. */
  lemma PartialStep(sm: seq<real>, w: nat, pct: seq<real> -> real, i: nat, q: nat, before: seq<real>,
                    after: seq<real>)
    requires w >= 2 && i < |sm| && i == q * (w / 2)
    requires |before| == |after| == |sm|
    requires forall j :: 0 <= j < |sm| ==> before[j] == Partial(sm, w, pct, i, j)
    requires forall j :: 0 <= j < |sm| ==>
      after[j] == if i <= j < Min(i + w, |sm|) then pct(sm[i..Min(i + w, |sm|)]) else before[j]
    ensures forall j :: 0 <= j < |sm| ==> after[j] == Partial(sm, w, pct, i + w / 2, j)
  {
    var overlap := w / 2;
    forall j | 0 <= j < |sm|
      ensures after[j] == Partial(sm, w, pct, i + overlap, j)
    {
      if i <= j < i + overlap {
        SameWindow(i, j, overlap, q);
      }
    }
  }

  /** `a[lo:hi] = v`, in place. */
  method Fill(a: array<real>, lo: nat, hi: nat, v: real)
    requires lo <= hi <= a.Length
    modifies a
    ensures forall j :: 0 <= j < a.Length ==> a[j] == if lo <= j < hi then v else old(a[j])
  {
    for k := lo to hi
      invariant forall j :: 0 <= j < a.Length ==> a[j] == if lo <= j < k then v else old(a[j])
    {
      a[k] := v;
    }
  }

  lemma SameWindow(i: nat, j: nat, overlap: nat, q: nat)
    requires overlap > 0 && i == q * overlap && i <= j < i + overlap
    ensures WindowStart(j, overlap) == i
  {
    DivUnique(j, overlap, q);
  }

  lemma DivUnique(j: nat, d: nat, q: int)
    requires d > 0 && q * d <= j < q * d + d
    ensures j / d == q
  {
    var p := j / d;
    assert j == p * d + j % d;
    if p < q {
      MulMonotoneInt(p + 1, q, d);
    } else if p > q {
      MulMonotoneInt(q + 1, p, d);
    }
  }

  /** The window loop: every window starting at a multiple of the overlap is
      filled with its percentile, later windows overwriting earlier ones; a signal
      shorter than one window gets the global percentile everywhere. */
  method AdaptiveThresholds(sm: seq<real>, w: nat, pct: seq<real> -> real) returns (th: array<real>)
    requires w >= 2
    ensures fresh(th) && th.Length == |sm|
    ensures forall j :: 0 <= j < |sm| ==> th[j] == ThresholdAt(sm, w, pct, j)
  {
    var n := |sm|;
    var overlap := w / 2;
    th := new real[n](_ => 0.0);
    var i := 0;
    ghost var q: nat := 0;
    while i < n
      invariant i == q * overlap
      invariant forall j :: 0 <= j < n ==> th[j] == Partial(sm, w, pct, i, j)
      decreases n - i
    {
      var end := Min(i + w, n);
      var v := pct(sm[i..end]);
      ghost var before := th[..];
      Fill(th, i, end, v);
      PartialStep(sm, w, pct, i, q, before, th[..]);
      i, q := i + overlap, q + 1;
    }
    if n < w {
      Fill(th, 0, n, pct(sm));
    }
  }

  // ------------------------------------------------------ amplitude check

  /** The peaks whose amplitude in the raw signal exceeds `level` (the median plus a
      tenth of the standard deviation, from the numeric library). */
  function AboveLevel(peaks: seq<int>, ecg: seq<real>, level: real): (r: seq<int>)
    requires forall k :: 0 <= k < |peaks| ==> 0 <= peaks[k] < |ecg|
    ensures |r| <= |peaks|
  {
    if peaks == [] then []
    else
      var p := peaks[|peaks| - 1];
      AboveLevel(peaks[..|peaks| - 1], ecg, level) + (if ecg[p] > level then [p] else [])
  }

  /** The check keeps exactly the peaks above the level. */
  lemma {:induction false} AboveLevelMembers(peaks: seq<int>, ecg: seq<real>, level: real)
    requires forall k :: 0 <= k < |peaks| ==> 0 <= peaks[k] < |ecg|
    ensures forall p :: p in AboveLevel(peaks, ecg, level) <==> p in peaks && ecg[p] > level
  {
    if peaks != [] {
      var init := peaks[..|peaks| - 1];
      AboveLevelMembers(init, ecg, level);
      assert peaks == init + [peaks[|peaks| - 1]];
    }
  }

  /** and keeps them in order. */
  lemma {:induction false} AboveLevelKeepsOrder(peaks: seq<int>, ecg: seq<real>, level: real)
    requires forall k :: 0 <= k < |peaks| ==> 0 <= peaks[k] < |ecg|
    requires StrictlyIncreasing(peaks)
    ensures StrictlyIncreasing(AboveLevel(peaks, ecg, level))
  {
    if peaks != [] {
      var init := peaks[..|peaks| - 1];
      var last := peaks[|peaks| - 1];
      AboveLevelKeepsOrder(init, ecg, level);
      AboveLevelMembers(init, ecg, level);
      var r0 := AboveLevel(init, ecg, level);
      forall a | 0 <= a < |r0|
        ensures r0[a] < last
      {
        assert r0[a] in r0;
        var j :| 0 <= j < |init| && init[j] == r0[a];
        assert peaks[j] < peaks[|peaks| - 1];
      }
    }
  }

  // ---------------------------------------------------------- the detector

  /** A Python number: the sampling rate the recording library reports is a float. */
  datatype Number = IntNumber(i: int) | FloatNumber(r: real)

  /** `range(0, n, step)` accepts only an integer step, and not zero. */
  function RangeStep(step: Number): (r: Result<nat>)
    ensures r.Ok? <==> step.IntNumber? && step.i > 0
  {
    match step
    case FloatNumber(_) => Err(TypeError)
    case IntNumber(k) => if k > 0 then Ok(k) else Err(ValueError)
  }

  /** `5 * sfreq // 2`, keeping the type of the rate. */
  function HalfWindow(sfreq: Number): Number {
    match sfreq
    case IntNumber(k) => IntNumber((5 * k) / 2)
    case FloatNumber(x) => FloatNumber(((5.0 * x) / 2.0).Floor as real)
  }

  /** The detector after smoothing, as written: the window loop's `range` is given
      `5 * sfreq // 2` as its step, an error inside is caught and yields no peaks.
      `sm` is the smoothed signal and `ecg` the raw one. */
  method DetectRPeaks(sm: seq<real>, ecg: seq<real>, sfreq: Number, pct: seq<real> -> real, level: real)
    returns (peaks: seq<int>)
    requires |ecg| == |sm|
    ensures RangeStep(HalfWindow(sfreq)).Err? ==> peaks == []
    ensures sfreq.IntNumber? && sfreq.i >= 1 ==>
      var th := seq(|sm|, j requires 0 <= j < |sm| => ThresholdAt(sm, 5 * sfreq.i, pct, j));
      peaks == AboveLevel(Picked(sm, th, Trunc(0.3 * sfreq.i as real), |sm|), ecg, level)
  {
    var step := RangeStep(HalfWindow(sfreq));
    if step.Err? {
      return [];
    }
    peaks := DetectWithWindow(sm, ecg, 5 * sfreq.i, Trunc(0.3 * sfreq.i as real), pct, level);
  }

  /** The detector with an integer window of `w` samples, as the code evidently
      intends (`int(5 * sfreq)`). */
  method DetectWithWindow(sm: seq<real>, ecg: seq<real>, w: nat, minDistance: int, pct: seq<real> -> real,
                          level: real)
    returns (peaks: seq<int>)
    requires |ecg| == |sm| && w >= 2
    ensures var th := seq(|sm|, j requires 0 <= j < |sm| => ThresholdAt(sm, w, pct, j));
      peaks == AboveLevel(Picked(sm, th, minDistance, |sm|), ecg, level)
    ensures StrictlyIncreasing(peaks)
    ensures forall k :: 0 <= k < |peaks| ==> 0 <= peaks[k] < |sm| && ecg[peaks[k]] > level
  {
    var th := AdaptiveThresholds(sm, w, pct);
    ghost var spec := seq(|sm|, j requires 0 <= j < |sm| => ThresholdAt(sm, w, pct, j));
    assert forall j :: 0 <= j < |sm| ==> th[..][j] == spec[j];
    assert th[..] == spec;
    var picked := PickPeaks(sm, th[..], minDistance);
    PickedSound(sm, spec, minDistance, |sm|);
    peaks := AboveLevel(picked, ecg, level);
    AboveLevelMembers(picked, ecg, level);
    AboveLevelKeepsOrder(picked, ecg, level);
    forall k | 0 <= k < |peaks|
      ensures 0 <= peaks[k] < |sm| && ecg[peaks[k]] > level
    {
      assert peaks[k] in peaks;
      var t :| 0 <= t < |picked| && picked[t] == peaks[k];
    }
  }

  /** As written, with the float rate the recording library reports, the detector
      never finds a peak. */
  lemma FloatRateFindsNoPeaks(x: real)
    ensures RangeStep(HalfWindow(FloatNumber(x))).Err?
  {
  }

  /** The later detector: the filter module is imported only in the branch for
      signals longer than 100 samples, so on a shorter signal the median filter
      names an unbound local. `pipeline` stands for the library steps (band-pass
      filter, squaring, median filter, percentile, peak finding) on a longer
      signal, with whatever error they raise. */
  function PsgDetectOutcome(ecg: seq<real>, pipeline: seq<real> -> Result<seq<int>>): (r: Result<seq<int>>)
    ensures |ecg| <= 100 ==> r == Err(UnboundLocalError)
    ensures |ecg| > 100 ==> r == pipeline(ecg)
  {
    if |ecg| > 100 then pipeline(ecg) else Err(UnboundLocalError)
  }

  /** Any error is caught and gives no peaks. */
  function PsgDetectRPeaks(ecg: seq<real>, pipeline: seq<real> -> Result<seq<int>>): (peaks: seq<int>)
    ensures |ecg| <= 100 ==> peaks == []
    ensures |ecg| > 100 && pipeline(ecg).Ok? ==> peaks == pipeline(ecg).value
    ensures |ecg| > 100 && pipeline(ecg).Err? ==> peaks == []
  {
    match PsgDetectOutcome(ecg, pipeline)
    case Ok(ps) => ps
    case Err(_) => []
  }

  /** A signal of at most 100 samples never yields a peak, whatever the library would
      have found. */
  lemma ShortSignalNoPeaks(ecg: seq<real>, pipeline: seq<real> -> Result<seq<int>>)
    requires |ecg| <= 100
    ensures PsgDetectRPeaks(ecg, pipeline) == []
  {
  }

  // -------------------------------------------------------- segment merging

  predicate PeaksWithin(ps: seq<int>, n: int) {
    StrictlyIncreasing(ps) && forall k :: 0 <= k < |ps| ==> 0 <= ps[k] < n
  }

  /** `segment_peaks + start`. */
  function Shift(ps: seq<int>, offset: int): (r: seq<int>)
    ensures |r| == |ps|
  {
    seq(|ps|, k requires 0 <= k < |ps| => ps[k] + offset)
  }

  /** `_get_clean_r_peaks`: with a mask covering the analysed samples, the detector
      runs on each valid segment at least ten seconds long, segments of five
      seconds or less are skipped, and each segment's peaks are shifted by its start;
      otherwise the detector runs on the whole signal. The merged peaks are
      ascending and fall only on valid samples. */
  method CleanRPeaks(ecg: seq<real>, sfreq: real, mask: Option<seq<bool>>, maxSamples: nat,
                     detect: seq<real> -> seq<int>)
    returns (peaks: seq<int>)
    requires forall x: seq<real> :: PeaksWithin(detect(x), |x|)
    ensures StrictlyIncreasing(peaks)
    ensures mask.Some? && |mask.value| >= maxSamples ==>
      forall k :: 0 <= k < |peaks| ==> 0 <= peaks[k] < maxSamples && mask.value[peaks[k]]
    ensures mask.Some? && |mask.value| >= maxSamples ==>
      (exists segs :: CleanSegments(mask.value, maxSamples, sfreq, segs))
      && forall segs :: CleanSegments(mask.value, maxSamples, sfreq, segs) ==>
           peaks == MergedPeaks(ecg, segs, Trunc(sfreq * 5.0), detect)
    ensures !(mask.Some? && |mask.value| >= maxSamples) ==> peaks == detect(ecg)
  {
    if mask.None? || |mask.value| < maxSamples {
      return detect(ecg);
    }
    var m := mask.value[..maxSamples];
    var minLength := Trunc(sfreq * 10.0);
    var segs := FindContinuousSegments(m, minLength);
    assert Spans(segs) by {
      forall k | 0 <= k < |segs| ensures 0 <= segs[k].0 <= segs[k].1 {
        assert Qualifies(m, minLength, segs[k].0, segs[k].1);
      }
    }
    peaks := MergeSegments(ecg, m, minLength, segs, Trunc(sfreq * 5.0), detect);
    assert CleanSegments(mask.value, maxSamples, sfreq, segs);
    forall other | CleanSegments(mask.value, maxSamples, sfreq, other)
      ensures peaks == MergedPeaks(ecg, other, Trunc(sfreq * 5.0), detect)
    {
      SegmentationUnique(m, minLength, segs, other);
    }
  }

  /** The segments `_get_clean_r_peaks` analyses: those of the mask's first
      `maxSamples` entries at least ten seconds long. */
  ghost predicate CleanSegments(mask: seq<bool>, maxSamples: nat, sfreq: real, segs: seq<(int, int)>)
    requires |mask| >= maxSamples
  {
    IsSegmentation(mask[..maxSamples], Trunc(sfreq * 10.0), segs) && Spans(segs)
  }

  /** The loop over the segments: each one's detections appended in turn. */
  method MergeSegments(ecg: seq<real>, m: seq<bool>, minLength: int, segs: seq<(int, int)>, minDetect: int,
                       detect: seq<real> -> seq<int>)
    returns (peaks: seq<int>)
    requires forall x: seq<real> :: PeaksWithin(detect(x), |x|)
    requires Ascending(segs)
    requires forall k :: 0 <= k < |segs| ==> Qualifies(m, minLength, segs[k].0, segs[k].1)
    requires Spans(segs)
    ensures MergedBelow(peaks, m, |m|)
    ensures peaks == MergedPeaks(ecg, segs, minDetect, detect)
  {
    peaks := [];
    ghost var bound := 0;
    for k := 0 to |segs|
      invariant bound == if k == 0 then 0 else segs[k - 1].1
      invariant bound <= |m|
      invariant MergedBelow(peaks, m, bound)
      invariant Spans(segs[..k]) && peaks == MergedPeaks(ecg, segs[..k], minDetect, detect)
    {
      var (s, e) := segs[k];
      assert Qualifies(m, minLength, s, e);
      assert bound < s || k == 0;
      var shifted := SegmentPeaks(ecg, m, s, e, minDetect, detect);
      MergeStep(peaks, shifted, m, bound, s, e);
      MergedPeaksStep(ecg, segs, k, minDetect, detect);
      peaks := peaks + shifted;
      bound := e;
    }
    assert segs[..|segs|] == segs;
  }

  /** The detections of one segment [s, e) on the signal's own sample indices:
      none when the segment is `minDetect` samples or shorter. */
  function SegmentDetections(ecg: seq<real>, s: int, e: int, minDetect: int, detect: seq<real> -> seq<int>)
    : seq<int>
    requires 0 <= s <= e
  {
    var segment := ecg[Min(s, |ecg|)..Min(e, |ecg|)];
    if |segment| > minDetect then Shift(detect(segment), s) else []
  }

  /** One more segment appends its own detections. */
  lemma MergedPeaksStep(ecg: seq<real>, segs: seq<(int, int)>, k: nat, minDetect: int,
                        detect: seq<real> -> seq<int>)
    requires Spans(segs) && k < |segs|
    ensures Spans(segs[..k]) && Spans(segs[..k + 1])
    ensures MergedPeaks(ecg, segs[..k + 1], minDetect, detect)
      == MergedPeaks(ecg, segs[..k], minDetect, detect) + SegmentDetections(ecg, segs[k].0, segs[k].1, minDetect, detect)
  {
    assert segs[..k + 1][..k] == segs[..k];
  }

  /** Each segment is a well-ordered pair of sample indices. */
  predicate Spans(segs: seq<(int, int)>) {
    forall k :: 0 <= k < |segs| ==> 0 <= segs[k].0 <= segs[k].1
  }

  /** The concatenated detections of the segments, in segment order. */
  function MergedPeaks(ecg: seq<real>, segs: seq<(int, int)>, minDetect: int, detect: seq<real> -> seq<int>)
    : seq<int>
    requires Spans(segs)
  {
    if segs == [] then []
    else MergedPeaks(ecg, segs[..|segs| - 1], minDetect, detect)
         + SegmentDetections(ecg, segs[|segs| - 1].0, segs[|segs| - 1].1, minDetect, detect)
  }

  /** Merged peaks so far: ascending, on valid samples, and all below `bound`. */
  predicate MergedBelow(peaks: seq<int>, m: seq<bool>, bound: int) {
    StrictlyIncreasing(peaks)
    && forall q :: 0 <= q < |peaks| ==> 0 <= peaks[q] < bound && peaks[q] < |m| && m[peaks[q]]
  }

  /** The peaks of one valid segment [s, e), on the signal's own sample indices:
      none when the segment is five seconds or shorter. */
  method SegmentPeaks(ecg: seq<real>, m: seq<bool>, s: int, e: int, minDetect: int,
                      detect: seq<real> -> seq<int>)
    returns (shifted: seq<int>)
    requires forall x: seq<real> :: PeaksWithin(detect(x), |x|)
    requires AllTrue(m, s, e)
    ensures StrictlyIncreasing(shifted)
    ensures forall q :: 0 <= q < |shifted| ==> s <= shifted[q] < e && m[shifted[q]]
    ensures shifted == SegmentDetections(ecg, s, e, minDetect, detect)
  {
    var segment := ecg[Min(s, |ecg|)..Min(e, |ecg|)];
    shifted := [];
    if |segment| > minDetect {
      var local := detect(segment);
      assert PeaksWithin(local, |segment|);
      shifted := Shift(local, s);
    }
  }

  /** Appending the peaks of a later segment keeps the merged list ascending and on
      valid samples, now bounded by that segment's end. */
  lemma MergeStep(peaks: seq<int>, shifted: seq<int>, m: seq<bool>, bound: int, s: int, e: int)
    requires MergedBelow(peaks, m, bound) && (bound <= s || peaks == [])
    requires StrictlyIncreasing(shifted) && 0 <= s && e <= |m|
    requires forall q :: 0 <= q < |shifted| ==> s <= shifted[q] < e && m[shifted[q]]
    requires bound <= e
    ensures MergedBelow(peaks + shifted, m, e)
  {
  }
}
