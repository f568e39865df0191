/** The hypnogram: the scored epochs placed on the recording clock, and the
    statistics read off it (stage changes, time per stage, longest runs). */
module Hypnogram {
  import opened Base
  import opened Annotations
  import opened StageSequence
  import opened Segments
  import opened Clock

  /** One scored epoch as the hypnogram lists it. */
  datatype HypnogramEpoch = HypnogramEpoch(
    stage: Stage,
    startMinutes: real, endMinutes: real,
    startFormatted: string, endFormatted: string,
    durationMinutes: real)

  /** The record of an epoch of stage `st` that starts `start` seconds into the
      recording and lasts `duration` seconds. */
  function EpochRecord(st: Stage, start: real, duration: real): (e: HypnogramEpoch)
    ensures e.endMinutes - e.startMinutes == e.durationMinutes
  {
    HypnogramEpoch(st, start / 60.0, (start + duration) / 60.0,
                   FormatClock(start), FormatClock(start + duration), duration / 60.0)
  }

  /** The hypnogram of an annotation stream: every annotation advances the clock
      by its duration, and the scored epochs are listed with their times. */
  function HypnogramOf(anns: seq<Annotation>): seq<HypnogramEpoch> {
    if anns == [] then []
    else
      var p := anns[..|anns| - 1];
      var a := anns[|anns| - 1];
      var e := EpochStage(a, false);
      HypnogramOf(p) + (if e.Some? then [EpochRecord(e.value, Elapsed(p), a.duration)] else [])
  }

  /** Walks the annotations with a running clock and lists the scored epochs. */
  method GenerateHypnogram(anns: seq<Annotation>) returns (h: seq<HypnogramEpoch>)
    ensures h == HypnogramOf(anns)
  {
    h := [];
    var currentTime := 0.0;
    for i := 0 to |anns|
      invariant currentTime == Elapsed(anns[..i])
      invariant h == HypnogramOf(anns[..i])
    {
      assert anns[..i + 1][..i] == anns[..i];
      var st := EpochStage(anns[i], false);
      if st.Some? {
        h := h + [EpochRecord(st.value, currentTime, anns[i].duration)];
      }
      currentTime := currentTime + anns[i].duration;
    }
    assert anns[..|anns|] == anns;
  }

  function Stages(h: seq<HypnogramEpoch>): (s: seq<Stage>)
    ensures |s| == |h| && forall k :: 0 <= k < |h| ==> s[k] == h[k].stage
  {
    seq(|h|, k requires 0 <= k < |h| => h[k].stage)
  }

  /** The hypnogram lists exactly the epoch sequence, in order, and starts each
      epoch at the summed durations of all annotations before it. */
  lemma {:induction false} HypnogramFollowsEpochs(anns: seq<Annotation>)
    ensures Stages(HypnogramOf(anns)) == EpochSequence(anns)
  {
    if anns != [] {
      var p := anns[..|anns| - 1];
      HypnogramFollowsEpochs(p);
      var e := EpochStage(anns[|anns| - 1], false);
      if e.Some? {
        assert EpochSequence(anns) == EpochSequence(p) + [e.value];
      } else {
        assert EpochSequence(anns) == EpochSequence(p);
      }
    }
  }

  /** The last annotation either lists one more epoch, starting at the clock
      reached so far, or lists nothing. */
  lemma HypnogramLast(anns: seq<Annotation>)
    requires anns != []
    ensures var p := anns[..|anns| - 1];
      var h := HypnogramOf(anns);
      var e := EpochStage(anns[|anns| - 1], false);
      (e.None? ==> h == HypnogramOf(p))
      && (e.Some? ==> |h| == |HypnogramOf(p)| + 1 && h[..|h| - 1] == HypnogramOf(p)
                      && h[|h| - 1].startMinutes == Elapsed(p) / 60.0
                      && h[|h| - 1].endMinutes == Elapsed(anns) / 60.0)
  {
  }

  /** With non-negative durations no epoch ends after the clock has run out. */
  lemma {:induction false} HypnogramWithinRecording(anns: seq<Annotation>)
    requires forall k :: 0 <= k < |anns| ==> anns[k].duration >= 0.0
    ensures var h := HypnogramOf(anns);
      forall k :: 0 <= k < |h| ==> h[k].endMinutes <= Elapsed(anns) / 60.0
  {
    if anns != [] {
      var p := anns[..|anns| - 1];
      HypnogramWithinRecording(p);
      HypnogramLast(anns);
      var h := HypnogramOf(anns);
      var hp := HypnogramOf(p);
      assert Elapsed(p) <= Elapsed(anns);
      forall k | 0 <= k < |h|
        ensures h[k].endMinutes <= Elapsed(anns) / 60.0
      {
        if k < |hp| {
          assert h[k] == hp[k];
        }
      }
    }
  }

  /** With non-negative durations the epochs do not overlap: each ends no later
      than the next one starts. */
  lemma {:induction false} HypnogramOrdered(anns: seq<Annotation>)
    requires forall k :: 0 <= k < |anns| ==> anns[k].duration >= 0.0
    ensures var h := HypnogramOf(anns);
      forall k :: 0 <= k < |h| - 1 ==> h[k].endMinutes <= h[k + 1].startMinutes
  {
    if anns != [] {
      var p := anns[..|anns| - 1];
      HypnogramOrdered(p);
      HypnogramWithinRecording(p);
      HypnogramLast(anns);
      var h := HypnogramOf(anns);
      var hp := HypnogramOf(p);
      forall k | 0 <= k < |h| - 1
        ensures h[k].endMinutes <= h[k + 1].startMinutes
      {
        assert h[k] == hp[k];
        if k + 1 < |hp| {
          assert h[k + 1] == hp[k + 1];
        }
      }
    }
  }

  // ------------------------------------------------------------- statistics

  /** Minutes covered by the epochs at positions [i, j). */
  function MinutesSum(h: seq<HypnogramEpoch>, i: nat, j: nat): real
    requires i <= j <= |h|
    decreases j
  {
    if i == j then 0.0 else MinutesSum(h, i, j - 1) + h[j - 1].durationMinutes
  }

  /** Minutes of the epochs of stage `st`. */
  function StageMinutes(h: seq<HypnogramEpoch>, st: Stage): real {
    if h == [] then 0.0
    else StageMinutes(h[..|h| - 1], st) + (if h[|h| - 1].stage == st then h[|h| - 1].durationMinutes else 0.0)
  }

  /** Which epochs have stage `st`. */
  function StageMask(h: seq<HypnogramEpoch>, st: Stage): (mask: seq<bool>)
    ensures |mask| == |h| && forall k :: 0 <= k < |h| ==> mask[k] == (h[k].stage == st)
  {
    seq(|h|, k requires 0 <= k < |h| => h[k].stage == st)
  }

  /** [a, b) is the first of the longest maximal runs of the mask. */
  ghost predicate IsFirstLongestRun(mask: seq<bool>, a: int, b: int) {
    MaximalRun(mask, a, b)
    && forall c, d :: MaximalRun(mask, c, d) ==> d - c < b - a || (d - c == b - a && a <= c)
  }

  datatype Period = Period(durationMinutes: real, epochsCount: nat, startTime: string, endTime: string)

  function PeriodOf(h: seq<HypnogramEpoch>, a: nat, b: nat): (p: Period)
    requires a < b <= |h|
    ensures p.epochsCount == b - a
  {
    Period(MinutesSum(h, a, b), b - a, h[a].startFormatted, h[b - 1].endFormatted)
  }

  datatype HypnogramStatistics = HypnogramStatistics(
    totalEpochs: nat,
    totalDurationMinutes: real,
    stageChanges: nat,
    stageDurations: map<Stage, real>,
    longestStagePeriods: map<Stage, Period>)

  const StageOrder: seq<Stage> := [Wake, N1, N2, N3, REM]

  /** `get_hypnogram_statistics`: `None` for an empty hypnogram; otherwise the epoch
      count, the total minutes, the number of stage changes, the minutes per stage
      that occurs, and for each of the five stages that occurs its first longest run. */
  method GetHypnogramStatistics(h: seq<HypnogramEpoch>) returns (r: Option<HypnogramStatistics>)
    ensures r.None? <==> h == []
    ensures r.Some? ==> r.value.totalEpochs == |h| && r.value.totalDurationMinutes == MinutesSum(h, 0, |h|)
    ensures r.Some? ==> r.value.stageChanges == Changes(Stages(h))
    ensures r.Some? ==> forall st :: st in r.value.stageDurations <==> st in Stages(h)
    ensures r.Some? ==> forall st :: st in r.value.stageDurations ==> r.value.stageDurations[st] == StageMinutes(h, st)
    ensures r.Some? ==> forall st :: st in r.value.longestStagePeriods <==> st in Stages(h) && st in StageOrder
    ensures r.Some? ==> forall st :: st in r.value.longestStagePeriods ==>
      exists a :: IsLongestPeriodAt(h, st, a, r.value.longestStagePeriods[st])
  {
    if h == [] {
      return None;
    }
    var changes, durations := ChangesAndDurations(h);
    var total := SumMinutes(h);
    var longest: map<Stage, Period> := map[];
    for j := 0 to |StageOrder|
      invariant forall st :: st in longest <==> st in Stages(h) && st in StageOrder[..j]
      invariant forall st :: st in longest ==> exists a :: IsLongestPeriodAt(h, st, a, longest[st])
    {
      longest := AddLongest(h, longest, j);
    }
    assert StageOrder[..|StageOrder|] == StageOrder;
    r := Some(HypnogramStatistics(|h|, total, changes, durations, longest));
  }

  /** One stage of the second pass: a stage that occurs gets its longest period. */
  method AddLongest(h: seq<HypnogramEpoch>, longest: map<Stage, Period>, j: nat)
    returns (longest': map<Stage, Period>)
    requires j < |StageOrder|
    requires forall st :: st in longest <==> st in Stages(h) && st in StageOrder[..j]
    requires forall st :: st in longest ==> exists a :: IsLongestPeriodAt(h, st, a, longest[st])
    ensures forall st :: st in longest' <==> st in Stages(h) && st in StageOrder[..j + 1]
    ensures forall st :: st in longest' ==> exists a :: IsLongestPeriodAt(h, st, a, longest'[st])
  {
    assert StageOrder[..j + 1] == StageOrder[..j] + [StageOrder[j]];
    longest' := longest;
    var st := StageOrder[j];
    if st in Stages(h) {
      var p := LongestPeriod(h, st);
      longest' := longest[st := p];
    }
  }

  /** The first pass: stage changes between consecutive epochs and minutes per stage. */
  method ChangesAndDurations(h: seq<HypnogramEpoch>) returns (changes: nat, durations: map<Stage, real>)
    ensures changes == Changes(Stages(h))
    ensures forall st :: st in durations <==> st in Stages(h)
    ensures forall st :: st in durations ==> durations[st] == StageMinutes(h, st)
  {
    changes := 0;
    durations := map[];
    var previous: Option<Stage> := None;
    for i := 0 to |h|
      invariant previous == if i == 0 then None else Some(h[i - 1].stage)
      invariant changes == Changes(Stages(h)[..i])
      invariant forall st :: st in durations <==> st in Stages(h)[..i]
      invariant forall st :: st in durations ==> durations[st] == StageMinutes(h[..i], st)
    {
      changes, durations := ScanEpoch(h, i, previous, changes, durations);
      previous := Some(h[i].stage);
    }
    assert Stages(h)[..|h|] == Stages(h);
    assert h[..|h|] == h;
  }

  /** One epoch of the first pass: a stage change is counted and the epoch's
      minutes are added to its stage. */
  method ScanEpoch(h: seq<HypnogramEpoch>, i: nat, previous: Option<Stage>, changes: nat,
                   durations: map<Stage, real>)
    returns (changes': nat, durations': map<Stage, real>)
    requires i < |h|
    requires previous == if i == 0 then None else Some(h[i - 1].stage)
    requires changes == Changes(Stages(h)[..i])
    requires forall st :: st in durations <==> st in Stages(h)[..i]
    requires forall st :: st in durations ==> durations[st] == StageMinutes(h[..i], st)
    ensures changes' == Changes(Stages(h)[..i + 1])
    ensures forall st :: st in durations' <==> st in Stages(h)[..i + 1]
    ensures forall st :: st in durations' ==> durations'[st] == StageMinutes(h[..i + 1], st)
  {
    var current := h[i].stage;
    ChangesStep(Stages(h), i);
    StageMinutesStep(h, i);
    assert Stages(h)[..i] == Stages(h[..i]);
    assert Stages(h)[..i + 1] == Stages(h)[..i] + [current];
    if current !in durations {
      StageMinutesAbsent(h[..i], current);
    }
    changes' := changes;
    if previous.Some? && current != previous.value {
      changes' := changes + 1;
    }
    var sofar := if current in durations then durations[current] else 0.0;
    durations' := durations[current := sofar + h[i].durationMinutes];
  }

  /** Longest run of a stage that occurs: its maximal runs, then the first longest. */
  method LongestPeriod(h: seq<HypnogramEpoch>, st: Stage) returns (p: Period)
    requires st in Stages(h)
    ensures exists a :: IsLongestPeriodAt(h, st, a, p)
  {
    var mask := StageMask(h, st);
    var segs := FindContinuousSegments(mask, 1);
    SomeRunExists(h, st, segs);
    var k := FirstLongest(segs);
    FirstLongestIsFirstLongestRun(mask, segs, k);
    p := PeriodOf(h, segs[k].0, segs[k].1);
    assert IsLongestPeriodAt(h, st, segs[k].0, p);
  }

  /** The period of stage `st` starting at `a` is its first longest run, summarised. */
  ghost predicate IsLongestPeriodAt(h: seq<HypnogramEpoch>, st: Stage, a: int, p: Period) {
    0 <= a && a + p.epochsCount <= |h| && p.epochsCount > 0
    && IsFirstLongestRun(StageMask(h, st), a, a + p.epochsCount)
    && p == PeriodOf(h, a, a + p.epochsCount)
  }

  method SumMinutes(h: seq<HypnogramEpoch>) returns (total: real)
    ensures total == MinutesSum(h, 0, |h|)
  {
    total := 0.0;
    for i := 0 to |h|
      invariant total == MinutesSum(h, 0, i)
    {
      total := total + h[i].durationMinutes;
    }
  }

  lemma ChangesStep(s: seq<Stage>, i: nat)
    requires i < |s|
    ensures Changes(s[..i + 1]) == Changes(s[..i]) + (if i > 0 && s[i - 1] != s[i] then 1 else 0)
  {
    assert s[..i + 1][..i] == s[..i];
  }

  lemma StageMinutesStep(h: seq<HypnogramEpoch>, i: nat)
    requires i < |h|
    ensures forall st :: (StageMinutes(h[..i + 1], st)
      == StageMinutes(h[..i], st) + (if h[i].stage == st then h[i].durationMinutes else 0.0))
  {
    assert h[..i + 1][..i] == h[..i];
  }

  lemma {:induction false} StageMinutesAbsent(h: seq<HypnogramEpoch>, st: Stage)
    requires st !in Stages(h)
    ensures StageMinutes(h, st) == 0.0
  {
    if h != [] {
      assert Stages(h[..|h| - 1]) == Stages(h)[..|h| - 1];
      StageMinutesAbsent(h[..|h| - 1], st);
    }
  }

  /** A stage that occurs has at least one maximal run, so the segment scan finds one. */
  lemma SomeRunExists(h: seq<HypnogramEpoch>, st: Stage, segs: seq<(int, int)>)
    requires st in Stages(h)
    requires forall s, e :: Qualifies(StageMask(h, st), 1, s, e) ==> (s, e) in segs
    ensures |segs| > 0
  {
    var mask := StageMask(h, st);
    var k :| 0 <= k < |h| && Stages(h)[k] == st;
    var s := RunStart(mask, k);
    var e := RunEnd(mask, k);
    assert Qualifies(mask, 1, s, e);
    assert (s, e) in segs;
  }

  /** Start of the run of set samples through position k. */
  function RunStart(mask: seq<bool>, k: nat): (s: nat)
    requires k < |mask| && mask[k]
    ensures s <= k && AllTrue(mask, s, k + 1) && (s == 0 || !mask[s - 1])
  {
    if k == 0 || !mask[k - 1] then k else RunStart(mask, k - 1)
  }

  /** End (exclusive) of the run of set samples through position k. */
  function RunEnd(mask: seq<bool>, k: nat): (e: nat)
    requires k < |mask| && mask[k]
    ensures k < e <= |mask| && AllTrue(mask, k, e) && (e == |mask| || !mask[e])
    decreases |mask| - k
  {
    if k + 1 == |mask| || !mask[k + 1] then k + 1 else RunEnd(mask, k + 1)
  }

  /** The first longest entry of a complete, ordered list of maximal runs is the
      first longest maximal run of the mask. */
  lemma FirstLongestIsFirstLongestRun(mask: seq<bool>, segs: seq<(int, int)>, k: nat)
    requires Ascending(segs)
    requires forall j :: 0 <= j < |segs| ==> Qualifies(mask, 1, segs[j].0, segs[j].1)
    requires forall s, e :: Qualifies(mask, 1, s, e) ==> (s, e) in segs
    requires k < |segs|
    requires forall j :: 0 <= j < |segs| ==> segs[j].1 - segs[j].0 <= segs[k].1 - segs[k].0
    requires forall j :: 0 <= j < k ==> segs[j].1 - segs[j].0 < segs[k].1 - segs[k].0
    ensures IsFirstLongestRun(mask, segs[k].0, segs[k].1)
  {
    forall c, d | MaximalRun(mask, c, d)
      ensures d - c < segs[k].1 - segs[k].0 || (d - c == segs[k].1 - segs[k].0 && segs[k].0 <= c)
    {
      assert Qualifies(mask, 1, c, d);
      var j :| 0 <= j < |segs| && segs[j] == (c, d);
      if j > k {
        AscendingOrdered(segs, k, j);
      }
    }
  }

  /** Every epoch is counted under its own stage, so the minutes per stage add up to
      the total. */
  lemma {:induction false} StageMinutesPartition(h: seq<HypnogramEpoch>)
    ensures StageMinutes(h, Wake) + StageMinutes(h, N1) + StageMinutes(h, N2) + StageMinutes(h, N3)
      + StageMinutes(h, REM) + StageMinutes(h, Unknown) == MinutesSum(h, 0, |h|)
  {
    if h != [] {
      var p := h[..|h| - 1];
      StageMinutesPartition(p);
      MinutesSumPrefix(h, |h| - 1, |h| - 1);
    }
  }

  lemma {:induction false} MinutesSumPrefix(h: seq<HypnogramEpoch>, n: nat, j: nat)
    requires j <= n <= |h|
    ensures MinutesSum(h[..n], 0, j) == MinutesSum(h, 0, j)
  {
    if j > 0 {
      MinutesSumPrefix(h, n, j - 1);
    }
  }

  /** Each listed epoch lasts 30 s give or take less than one, so the minutes of a
      stage lie strictly between 29/60 and 31/60 per epoch of it. */
  lemma {:induction false} StageMinutesNearHalfPerEpoch(anns: seq<Annotation>, st: Stage)
    ensures var c := EpochCount(anns, st, false) as real;
      c * 29.0 / 60.0 <= StageMinutes(HypnogramOf(anns), st) <= c * 31.0 / 60.0
    ensures EpochCount(anns, st, false) > 0 ==>
      var c := EpochCount(anns, st, false) as real;
      c * 29.0 / 60.0 < StageMinutes(HypnogramOf(anns), st) < c * 31.0 / 60.0
  {
    if anns != [] {
      var p := anns[..|anns| - 1];
      var a := anns[|anns| - 1];
      StageMinutesNearHalfPerEpoch(p, st);
      HypnogramLast(anns);
      var e := EpochStage(a, false);
      var h := HypnogramOf(anns);
      var hp := HypnogramOf(p);
      var add := if e == Some(st) then a.duration / 60.0 else 0.0;
      assert EpochCount(anns, st, false) == EpochCount(p, st, false) + (if e == Some(st) then 1 else 0);
      if e.Some? {
        assert h[|h| - 1].durationMinutes == a.duration / 60.0;
        assert StageMinutes(h, st) == StageMinutes(hp, st) + add;
        assert IsEpochDuration(a.duration);
      }
      assert StageMinutes(h, st) == StageMinutes(hp, st) + add;
    }
  }
}
