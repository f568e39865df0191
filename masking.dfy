/** The sample validity mask: samples under artifact annotations are cleared in
    place, and the batch version also clears the stretches where the
    heartbeat marker falls silent. */
module Masking {
  import opened Base
  import opened Annotations

  /** `s` after NumPy's `s[start:end] = value`: the bounds are normalised like any
      slice bound and an empty or reversed range changes nothing. */
  function AssignRange(s: seq<bool>, start: int, end: int, value: bool): (r: seq<bool>)
    ensures |r| == |s|
  {
    seq(|s|, j requires 0 <= j < |s| =>
      if SliceBound(start, |s|) <= j < SliceBound(end, |s|) then value else s[j])
  }

  /** The slice assignment, done in place. */
  method AssignSlice(mask: array<bool>, start: int, end: int, value: bool)
    modifies mask
    ensures mask[..] == AssignRange(old(mask[..]), start, end, value)
  {
    var lo := SliceBound(start, mask.Length);
    var hi := SliceBound(end, mask.Length);
    if lo < hi {
      for k := lo to hi
        invariant forall j :: 0 <= j < mask.Length ==> mask[j] == if lo <= j < k then value else old(mask[j])
      {
        mask[k] := value;
      }
    }
  }

  // ------------------------------------------------------------ artifacts

  /** Sample range of an annotation: start and end truncated toward zero, the end
      capped at the last sample or at the length, by configuration. */
  function ArtifactStart(a: Annotation, sfreq: real): int {
    Trunc(a.onset * sfreq)
  }

  function ArtifactEnd(a: Annotation, sfreq: real, n: nat, clampToLast: bool): int {
    Min(Trunc((a.onset + a.duration) * sfreq), if clampToLast then n - 1 else n)
  }

  /** An annotation clears samples when its label contains the artifact marker
      and its start lies before the end of the recording. */
  predicate IsArtifact(a: Annotation, sfreq: real, n: nat) {
    Contains(a.description, ArtifactMarker) && ArtifactStart(a, sfreq) < n
  }

  /** The mask after the artifacts among `anns` have been cleared, in order. */
  function ArtifactMask(anns: seq<Annotation>, sfreq: real, n: nat, clampToLast: bool): (m: seq<bool>)
    ensures |m| == n
  {
    if anns == [] then seq(n, _ => true)
    else
      var prev := ArtifactMask(anns[..|anns| - 1], sfreq, n, clampToLast);
      var a := anns[|anns| - 1];
      if IsArtifact(a, sfreq, n) then
        AssignRange(prev, ArtifactStart(a, sfreq), ArtifactEnd(a, sfreq, n, clampToLast), false)
      else prev
  }

  /** Sample k lies in the cleared range of artifact annotation a. */
  predicate Covers(a: Annotation, sfreq: real, n: nat, clampToLast: bool, k: int) {
    IsArtifact(a, sfreq, n)
    && SliceBound(ArtifactStart(a, sfreq), n) <= k < SliceBound(ArtifactEnd(a, sfreq, n, clampToLast), n)
  }

  /** A sample stays valid exactly when no artifact annotation covers it. */
  lemma {:induction false} ArtifactMaskPointwise(anns: seq<Annotation>, sfreq: real, n: nat, clampToLast: bool, k: nat)
    requires k < n
    ensures ArtifactMask(anns, sfreq, n, clampToLast)[k]
      <==> forall j :: 0 <= j < |anns| ==> !Covers(anns[j], sfreq, n, clampToLast, k)
  {
    if anns != [] {
      var p := anns[..|anns| - 1];
      ArtifactMaskPointwise(p, sfreq, n, clampToLast, k);
      assert forall j :: 0 <= j < |p| ==> anns[j] == p[j];
    }
  }

  /** A recorded artifact region. The class-based version also records the sample
      range; heartbeat gaps are marked as such. */
  datatype Region = Region(startTime: real, endTime: real, duration: real,
                           samples: Option<(int, int)>, heartbeatGap: bool)

  function ArtifactRegion(a: Annotation, sfreq: real, n: nat, clampToLast: bool): Region {
    Region(a.onset, a.onset + a.duration, a.duration,
           if clampToLast then Some((ArtifactStart(a, sfreq), ArtifactEnd(a, sfreq, n, clampToLast))) else None,
           false)
  }

  function ArtifactRegions(anns: seq<Annotation>, sfreq: real, n: nat, clampToLast: bool): (rs: seq<Region>)
    ensures |rs| <= |anns|
  {
    if anns == [] then []
    else
      var a := anns[|anns| - 1];
      ArtifactRegions(anns[..|anns| - 1], sfreq, n, clampToLast)
      + (if IsArtifact(a, sfreq, n) then [ArtifactRegion(a, sfreq, n, clampToLast)] else [])
  }

  /** Starts from an all-valid mask and clears each artifact's samples in place,
      recording one region per artifact that starts inside the recording. */
  method GetArtifactMask(anns: seq<Annotation>, sfreq: real, n: nat, clampToLast: bool)
    returns (mask: array<bool>, regions: seq<Region>)
    ensures fresh(mask)
    ensures mask[..] == ArtifactMask(anns, sfreq, n, clampToLast)
    ensures regions == ArtifactRegions(anns, sfreq, n, clampToLast)
  {
    mask := new bool[n](_ => true);
    regions := [];
    for i := 0 to |anns|
      invariant mask[..] == ArtifactMask(anns[..i], sfreq, n, clampToLast)
      invariant regions == ArtifactRegions(anns[..i], sfreq, n, clampToLast)
    {
      assert anns[..i + 1][..i] == anns[..i];
      var a := anns[i];
      if Contains(a.description, ArtifactMarker) {
        var start := ArtifactStart(a, sfreq);
        var end := ArtifactEnd(a, sfreq, n, clampToLast);
        if start < n {
          AssignSlice(mask, start, end, false);
          regions := regions + [ArtifactRegion(a, sfreq, n, clampToLast)];
        }
      }
    }
    assert anns[..|anns|] == anns;
  }

  /** Capping the end at the last sample index, with an exclusive slice end,
      means the last sample is never cleared. */
  lemma LastSampleNeverCleared(anns: seq<Annotation>, sfreq: real, n: nat)
    requires n > 0
    ensures ArtifactMask(anns, sfreq, n, true)[n - 1]
  {
    ArtifactMaskPointwise(anns, sfreq, n, true, n - 1);
  }

  /** Capping at the length instead clears every sample of an artifact that starts
      inside the recording, up to its end or the end of the recording. */
  lemma ArtifactClearsItsSamples(anns: seq<Annotation>, sfreq: real, n: nat, j: nat, k: nat)
    requires j < |anns| && k < n
    requires IsArtifact(anns[j], sfreq, n)
    requires 0 <= ArtifactStart(anns[j], sfreq) <= k < Trunc((anns[j].onset + anns[j].duration) * sfreq)
    ensures !ArtifactMask(anns, sfreq, n, false)[k]
  {
    ArtifactMaskPointwise(anns, sfreq, n, false, k);
    assert Covers(anns[j], sfreq, n, false, k);
  }

  /** One artifact over the whole of a five-sample recording: the capped-at-length
      mask clears all five samples, the capped-at-last mask keeps the last. */
  lemma ClampExample()
    ensures var anns := [Annotation(0.0, 10.0, ArtifactMarker)];
      ArtifactMask(anns, 1.0, 5, false) == [false, false, false, false, false]
      && ArtifactMask(anns, 1.0, 5, true) == [false, false, false, false, true]
  {
    var anns := [Annotation(0.0, 10.0, ArtifactMarker)];
    assert MatchAt(ArtifactMarker, ArtifactMarker, 0);
    assert IsArtifact(anns[0], 1.0, 5);
    assert anns[..0] == [];
    var all := seq(5, _ => true);
    assert ArtifactMask(anns[..0], 1.0, 5, false) == all;
    assert ArtifactStart(anns[0], 1.0) == 0;
    assert ArtifactEnd(anns[0], 1.0, 5, false) == 5;
    assert ArtifactEnd(anns[0], 1.0, 5, true) == 4;
    assert SliceBound(0, 5) == 0 && SliceBound(5, 5) == 5 && SliceBound(4, 5) == 4;
    var a := AssignRange(all, 0, 5, false);
    assert forall j :: 0 <= j < 5 ==> !a[j];
    assert a == [false, false, false, false, false];
    var b := AssignRange(all, 0, 4, false);
    assert forall j :: 0 <= j < 4 ==> !b[j];
    assert b[4];
    assert b == [false, false, false, false, true];
  }

  // ------------------------------------------------------- heartbeat gaps

  const MaxGap: real := 5.0
  const MinGapDuration: real := 10.0

  /** Onsets of the annotations whose label is exactly the heartbeat marker. */
  function MarkerTimes(anns: seq<Annotation>): (ts: seq<real>)
    ensures |ts| <= |anns|
  {
    if anns == [] then []
    else
      var a := anns[|anns| - 1];
      MarkerTimes(anns[..|anns| - 1]) + (if a.description == HeartbeatMarker then [a.onset] else [])
  }

  /** The interval after marker i is a gap: longer than `maxGap` and at least `minDuration`. */
  predicate IsGap(ts: seq<real>, i: int, maxGap: real, minDuration: real)
    requires 0 <= i < |ts| - 1
  {
    ts[i + 1] - ts[i] > maxGap && ts[i + 1] - ts[i] >= minDuration
  }

  /** A gap is marked when its start sample lies inside the recording. */
  predicate MarksGap(ts: seq<real>, i: int, sfreq: real, n: nat, maxGap: real, minDuration: real)
    requires 0 <= i < |ts| - 1
  {
    IsGap(ts, i, maxGap, minDuration) && Trunc(ts[i] * sfreq) < n
  }

  function GapEnd(ts: seq<real>, i: int, sfreq: real, n: nat): int
    requires 0 <= i < |ts| - 1
  {
    Min(Trunc(ts[i + 1] * sfreq), n)
  }

  /** The gap mask after examining the intervals before position `m`. */
  function GapMask(ts: seq<real>, m: nat, sfreq: real, n: nat, maxGap: real, minDuration: real): (g: seq<bool>)
    requires m <= |ts| - 1 || m == 0
    ensures |g| == n
  {
    if m == 0 then seq(n, _ => false)
    else
      var prev := GapMask(ts, m - 1, sfreq, n, maxGap, minDuration);
      if MarksGap(ts, m - 1, sfreq, n, maxGap, minDuration)
      then AssignRange(prev, Trunc(ts[m - 1] * sfreq), GapEnd(ts, m - 1, sfreq, n), true)
      else prev
  }

  function GapRegions(ts: seq<real>, m: nat, sfreq: real, n: nat, maxGap: real, minDuration: real): (rs: seq<Region>)
    requires m <= |ts| - 1 || m == 0
    ensures |rs| <= m
  {
    if m == 0 then []
    else
      GapRegions(ts, m - 1, sfreq, n, maxGap, minDuration)
      + (if MarksGap(ts, m - 1, sfreq, n, maxGap, minDuration)
         then [Region(ts[m - 1], ts[m], ts[m] - ts[m - 1], None, true)] else [])
  }

  /** Sample k lies in the slice of the marked gap after marker i. */
  predicate GapCovers(ts: seq<real>, i: int, sfreq: real, n: nat, maxGap: real, minDuration: real, k: int)
    requires 0 <= i < |ts| - 1
  {
    MarksGap(ts, i, sfreq, n, maxGap, minDuration)
    && SliceBound(Trunc(ts[i] * sfreq), n) <= k < SliceBound(GapEnd(ts, i, sfreq, n), n)
  }

  /** A sample lies in a gap exactly when some marked gap's slice covers it. */
  lemma {:induction false} GapMaskPointwise(ts: seq<real>, m: nat, sfreq: real, n: nat, maxGap: real,
                                            minDuration: real, k: nat)
    requires m <= |ts| - 1 || m == 0
    requires k < n
    ensures GapMask(ts, m, sfreq, n, maxGap, minDuration)[k] <==>
      exists i :: 0 <= i < m && GapCovers(ts, i, sfreq, n, maxGap, minDuration, k)
  {
    if m > 0 {
      GapMaskPointwise(ts, m - 1, sfreq, n, maxGap, minDuration, k);
      if GapCovers(ts, m - 1, sfreq, n, maxGap, minDuration, k) {
        assert GapMask(ts, m, sfreq, n, maxGap, minDuration)[k];
      } else {
        assert GapMask(ts, m, sfreq, n, maxGap, minDuration)[k] == GapMask(ts, m - 1, sfreq, n, maxGap, minDuration)[k];
      }
    }
  }

  /** `get_heartbeat_gaps`: nothing with fewer than two markers; otherwise a fresh
      all-clear mask with every long silence between consecutive markers set. */
  method GetHeartbeatGaps(anns: seq<Annotation>, sfreq: real, n: nat, maxGap: real, minDuration: real)
    returns (gap: Option<array<bool>>, regions: seq<Region>)
    ensures gap.None? <==> |MarkerTimes(anns)| < 2
    ensures gap.None? ==> regions == []
    ensures gap.Some? ==> (fresh(gap.value)
      && gap.value[..] == GapMask(MarkerTimes(anns), |MarkerTimes(anns)| - 1, sfreq, n, maxGap, minDuration)
      && regions == GapRegions(MarkerTimes(anns), |MarkerTimes(anns)| - 1, sfreq, n, maxGap, minDuration))
  {
    var times := CollectMarkerTimes(anns);
    if |times| < 2 {
      return None, [];
    }
    var mask;
    mask, regions := MarkGaps(times, sfreq, n, maxGap, minDuration);
    gap := Some(mask);
  }

  /** The gap loop: a fresh all-clear mask, then each long interval's samples set. */
  method MarkGaps(times: seq<real>, sfreq: real, n: nat, maxGap: real, minDuration: real)
    returns (mask: array<bool>, regions: seq<Region>)
    requires |times| >= 2
    ensures fresh(mask)
    ensures mask[..] == GapMask(times, |times| - 1, sfreq, n, maxGap, minDuration)
    ensures regions == GapRegions(times, |times| - 1, sfreq, n, maxGap, minDuration)
  {
    mask := new bool[n](_ => false);
    regions := [];
    for idx := 0 to |times| - 1
      invariant mask[..] == GapMask(times, idx, sfreq, n, maxGap, minDuration)
      invariant regions == GapRegions(times, idx, sfreq, n, maxGap, minDuration)
    {
      ghost var before := mask[..];
      regions := MarkInterval(mask, regions, times, idx, sfreq, maxGap, minDuration);
      GapStep(times, idx, sfreq, n, maxGap, minDuration, before, mask[..]);
    }
  }

  lemma GapStep(ts: seq<real>, m: nat, sfreq: real, n: nat, maxGap: real, minDuration: real,
                before: seq<bool>, after: seq<bool>)
    requires m < |ts| - 1 && before == GapMask(ts, m, sfreq, n, maxGap, minDuration)
    requires after == if MarksGap(ts, m, sfreq, n, maxGap, minDuration)
      then AssignRange(before, Trunc(ts[m] * sfreq), GapEnd(ts, m, sfreq, n), true) else before
    ensures after == GapMask(ts, m + 1, sfreq, n, maxGap, minDuration)
  {
  }

  /** One pass of the gap loop: the interval after marker `idx`. */
  method MarkInterval(mask: array<bool>, regions: seq<Region>, times: seq<real>, idx: nat, sfreq: real,
                      maxGap: real, minDuration: real)
    returns (regions': seq<Region>)
    requires idx < |times| - 1
    modifies mask
    ensures mask[..] == if MarksGap(times, idx, sfreq, mask.Length, maxGap, minDuration)
      then AssignRange(old(mask[..]), Trunc(times[idx] * sfreq), GapEnd(times, idx, sfreq, mask.Length), true)
      else old(mask[..])
    ensures regions' == regions + (if MarksGap(times, idx, sfreq, mask.Length, maxGap, minDuration)
      then [Region(times[idx], times[idx + 1], times[idx + 1] - times[idx], None, true)] else [])
  {
    regions' := regions;
    var n := mask.Length;
    var interval := times[idx + 1] - times[idx];
    if interval > maxGap && interval >= minDuration {
      var startSample := Trunc(times[idx] * sfreq);
      var endSample := Min(Trunc(times[idx + 1] * sfreq), n);
      if startSample < n {
        AssignSlice(mask, startSample, endSample, true);
        regions' := regions + [Region(times[idx], times[idx + 1], interval, None, true)];
      }
    }
  }

  method CollectMarkerTimes(anns: seq<Annotation>) returns (times: seq<real>)
    ensures times == MarkerTimes(anns)
  {
    times := [];
    for i := 0 to |anns|
      invariant times == MarkerTimes(anns[..i])
    {
      assert anns[..i + 1][..i] == anns[..i];
      if anns[i].description == HeartbeatMarker {
        times := times + [anns[i].onset];
      }
    }
    assert anns[..|anns|] == anns;
  }

  /** `valid &= ~gap`, in place. */
  method ClearGaps(valid: array<bool>, gap: array<bool>)
    requires valid.Length == gap.Length && valid != gap
    modifies valid
    ensures forall k :: 0 <= k < valid.Length ==> valid[k] == (old(valid[k]) && !gap[k])
  {
    for k := 0 to valid.Length
      invariant forall j :: 0 <= j < valid.Length ==>
        valid[j] == if j < k then old(valid[j]) && !gap[j] else old(valid[j])
    {
      valid[k] := valid[k] && !gap[k];
    }
  }

  /** The batch version: artifacts cleared with the end capped at the length, then
      heartbeat gaps cleared too; artifact regions come first, then gap regions. */
  method GetArtifactMaskWithGaps(anns: seq<Annotation>, sfreq: real, n: nat)
    returns (mask: array<bool>, regions: seq<Region>)
    ensures fresh(mask) && mask.Length == n
    ensures |MarkerTimes(anns)| < 2 ==>
      mask[..] == ArtifactMask(anns, sfreq, n, false) && regions == ArtifactRegions(anns, sfreq, n, false)
    ensures |MarkerTimes(anns)| >= 2 ==>
      var ts := MarkerTimes(anns);
      var g := GapMask(ts, |ts| - 1, sfreq, n, MaxGap, MinGapDuration);
      (forall k :: 0 <= k < n ==> mask[k] == (ArtifactMask(anns, sfreq, n, false)[k] && !g[k]))
      && regions == ArtifactRegions(anns, sfreq, n, false) + GapRegions(ts, |ts| - 1, sfreq, n, MaxGap, MinGapDuration)
  {
    mask, regions := GetArtifactMask(anns, sfreq, n, false);
    var gap, gapRegions := GetHeartbeatGaps(anns, sfreq, n, MaxGap, MinGapDuration);
    if gap.Some? {
      ClearGaps(mask, gap.value);
      regions := regions + gapRegions;
    }
  }
}
