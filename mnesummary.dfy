/** The stage summary of the MNE-based report: the stage annotations are mapped
    to five stage names, their durations are added up per stage, and the total
    sleep time is the sum over all stages, wake included. */
module MneSummary {
  import opened Base
  import opened Annotations

  /** The label table: both spellings of every stage, stage 4 folded into N3, and
      the REM labels of the recording software mapped to REM. */
  const StageNames: map<string, string> := map[
    "Sleep stage W" := "Бодрствование",
    "Sleep stage 1" := "N1",
    "Sleep stage 2" := "N2",
    "Sleep stage 3" := "N3",
    "Sleep stage 4" := "N3",
    "Sleep stage R" := "REM",
    "БДГ" := "REM",
    "Sleep stage W(eventUnknown)" := "Бодрствование",
    "Sleep stage 1(eventUnknown)" := "N1",
    "Sleep stage 2(eventUnknown)" := "N2",
    "Sleep stage 3(eventUnknown)" := "N3",
    "Sleep stage 4(eventUnknown)" := "N3",
    "Sleep stage R(eventUnknown)" := "REM",
    "БДГ(pointPolySomnographyREM)" := "REM"
  ]

  /** The five names the table maps to, each once. */
  const StageLabels: seq<string> := ["Бодрствование", "N1", "N2", "N3", "REM"]

  /** One mapped annotation: its stage name and its duration. */
  datatype SleepEvent = SleepEvent(stage: string, duration: real)

  /** The summary: the summed duration of every stage that occurs, and their total. */
  datatype SleepSummary = SleepSummary(durations: map<string, real>, totalSleepTime: real)

  /** Every label of the table maps to one of the five names. */
  lemma TableTargets()
    ensures forall d :: d in StageNames ==> StageNames[d] in StageLabels
  {
  }

  /** The annotations whose label is in the table, mapped, in order. */
  function SleepEvents(anns: seq<Annotation>): (events: seq<SleepEvent>)
    ensures |events| <= |anns|
    ensures forall k :: 0 <= k < |events| ==> events[k].stage in StageLabels
  {
    if anns == [] then []
    else
      var a := anns[|anns| - 1];
      SleepEvents(anns[..|anns| - 1])
        + (if a.description in StageNames then [SleepEvent(StageNames[a.description], a.duration)] else [])
  }

  /** The summed duration of the events of one stage. */
  function StageTotal(events: seq<SleepEvent>, stage: string): real {
    if events == [] then 0.0
    else
      var e := events[|events| - 1];
      StageTotal(events[..|events| - 1], stage) + (if e.stage == stage then e.duration else 0.0)
  }

  /** The summed duration of all events. */
  function Total(events: seq<SleepEvent>): real {
    if events == [] then 0.0 else Total(events[..|events| - 1]) + events[|events| - 1].duration
  }

  /** The stage totals of `labels`, added up. */
  function LabelSum(labels: seq<string>, events: seq<SleepEvent>): real {
    if labels == [] then 0.0 else StageTotal(events, labels[0]) + LabelSum(labels[1..], events)
  }

  predicate Occurs(events: seq<SleepEvent>, stage: string) {
    exists j :: 0 <= j < |events| && events[j].stage == stage
  }

  /** `analyze_sleep_stages`: nothing for no annotations or when no label is in the
      table; otherwise the per-stage sums, with an entry exactly for the stages that
      occur, and the total over all stages. */
  method AnalyzeSleepStages(anns: seq<Annotation>) returns (r: Option<SleepSummary>)
    ensures r.None? <==> SleepEvents(anns) == []
    ensures r.Some? ==>
      var events := SleepEvents(anns);
      (forall s :: s in r.value.durations <==> Occurs(events, s))
      && (forall s :: s in r.value.durations ==> r.value.durations[s] == StageTotal(events, s))
      && r.value.totalSleepTime == Total(events)
    ensures r.Some? ==> forall s :: s in r.value.durations ==> s in StageLabels
  {
    if anns == [] {
      return None;
    }
    var events := CollectSleepEvents(anns);
    if events == [] {
      return None;
    }
    var durations := SumByStage(events);
    var total := SumOfStages(events, durations);
    r := Some(SleepSummary(durations, total));
  }

  /** The first loop: the mapped annotations, in order. */
  method CollectSleepEvents(anns: seq<Annotation>) returns (events: seq<SleepEvent>)
    ensures events == SleepEvents(anns)
  {
    events := [];
    for i := 0 to |anns|
      invariant events == SleepEvents(anns[..i])
    {
      assert anns[..i + 1][..i] == anns[..i];
      if anns[i].description in StageNames {
        events := events + [SleepEvent(StageNames[anns[i].description], anns[i].duration)];
      }
    }
    assert anns[..|anns|] == anns;
  }

  /** The second loop, into a dictionary whose missing entries read as 0.0: an entry
      exactly for the stages that occur, holding their summed duration. */
  method SumByStage(events: seq<SleepEvent>) returns (durations: map<string, real>)
    ensures forall s :: s in durations <==> Occurs(events, s)
    ensures forall s :: s in durations ==> durations[s] == StageTotal(events, s)
  {
    durations := map[];
    for i := 0 to |events|
      invariant forall s :: s in durations <==> Occurs(events[..i], s)
      invariant forall s :: s in durations ==> durations[s] == StageTotal(events[..i], s)
    {
      var e := events[i];
      var before := if e.stage in durations then durations[e.stage] else 0.0;
      if e.stage !in durations {
        AbsentStageIsZero(events[..i], e.stage);
      }
      durations := durations[e.stage := before + e.duration];
      AccumulateStep(events, i);
    }
    assert events[..|events|] == events;
  }

  /** The sum of the dictionary's values, taken over the five names it can hold. */
  method SumOfStages(events: seq<SleepEvent>, durations: map<string, real>) returns (total: real)
    requires forall k :: 0 <= k < |events| ==> events[k].stage in StageLabels
    requires forall s :: s in durations <==> Occurs(events, s)
    requires forall s :: s in durations ==> durations[s] == StageTotal(events, s)
    ensures total == Total(events)
  {
    total := 0.0;
    for k := 0 to |StageLabels|
      invariant total == LabelSum(StageLabels[..k], events)
    {
      var name := StageLabels[k];
      var add := if name in durations then durations[name] else 0.0;
      if name !in durations {
        AbsentStageIsZero(events, name);
      }
      LabelSumStep(StageLabels[..k], name, events);
      assert StageLabels[..k + 1] == StageLabels[..k] + [name];
      total := total + add;
    }
    assert StageLabels[..|StageLabels|] == StageLabels;
    TotalByStages(events);
  }

  /** One more event: its stage now occurs, and its total grows by its duration. */
  lemma AccumulateStep(events: seq<SleepEvent>, i: nat)
    requires i < |events|
    ensures var e := events[i];
      (forall s :: Occurs(events[..i + 1], s) <==> Occurs(events[..i], s) || s == e.stage)
      && StageTotal(events[..i + 1], e.stage) == StageTotal(events[..i], e.stage) + e.duration
      && forall s :: s != e.stage ==> StageTotal(events[..i + 1], s) == StageTotal(events[..i], s)
  {
    var prefix := events[..i + 1];
    assert prefix[..i] == events[..i];
    assert prefix[i] == events[i];
    assert Occurs(prefix, events[i].stage);
    forall s | Occurs(events[..i + 1], s)
      ensures Occurs(events[..i], s) || s == events[i].stage
    {
      var j :| 0 <= j < i + 1 && prefix[j].stage == s;
      if j < i {
        assert events[..i][j] == prefix[j];
      }
    }
    forall s | Occurs(events[..i], s)
      ensures Occurs(events[..i + 1], s)
    {
      var j :| 0 <= j < i && events[..i][j].stage == s;
      assert prefix[j] == events[..i][j];
    }
  }

  /** A stage that never occurs sums to zero. */
  lemma {:induction false} AbsentStageIsZero(events: seq<SleepEvent>, stage: string)
    requires !Occurs(events, stage)
    ensures StageTotal(events, stage) == 0.0
  {
    if events != [] {
      var init := events[..|events| - 1];
      assert forall j :: 0 <= j < |init| ==> init[j] == events[j];
      AbsentStageIsZero(init, stage);
    }
  }

  lemma {:induction false} LabelSumStep(labels: seq<string>, name: string, events: seq<SleepEvent>)
    ensures LabelSum(labels + [name], events) == LabelSum(labels, events) + StageTotal(events, name)
  {
    if labels != [] {
      assert (labels + [name])[1..] == labels[1..] + [name];
      LabelSumStep(labels[1..], name, events);
    }
  }

  /** The duration an event adds to the stage totals of `labels`. */
  function Share(labels: seq<string>, e: SleepEvent): real {
    if labels == [] then 0.0 else (if e.stage == labels[0] then e.duration else 0.0) + Share(labels[1..], e)
  }

  lemma {:induction false} LabelSumAppend(labels: seq<string>, events: seq<SleepEvent>, e: SleepEvent)
    ensures LabelSum(labels, events + [e]) == LabelSum(labels, events) + Share(labels, e)
  {
    if labels != [] {
      assert (events + [e])[..|events|] == events;
      LabelSumAppend(labels[1..], events, e);
    }
  }

  /** The five names are distinct, so an event with one of them is counted once. */
  lemma ShareOfStage(e: SleepEvent)
    requires e.stage in StageLabels
    ensures Share(StageLabels, e) == e.duration
  {
    var s4: seq<string> := ["REM"];
    var s3: seq<string> := ["N3"] + s4;
    var s2: seq<string> := ["N2"] + s3;
    var s1: seq<string> := ["N1"] + s2;
    assert StageLabels == ["Бодрствование"] + s1;
    assert s4[1..] == [] && s3[1..] == s4 && s2[1..] == s3 && s1[1..] == s2;
    var d := e.duration;
    assert Share(s4, e) == if e.stage == "REM" then d else 0.0;
    assert Share(s3, e) == if e.stage == "N3" || e.stage == "REM" then d else 0.0;
    assert Share(s2, e) == if e.stage == "N2" || e.stage == "N3" || e.stage == "REM" then d else 0.0;
    assert Share(s1, e) == if e.stage in s1 then d else 0.0;
  }

  /** The total sleep time is the sum of the stage totals over the five names, wake
      included: every mapped duration is counted exactly once. */
  lemma {:induction false} TotalByStages(events: seq<SleepEvent>)
    requires forall k :: 0 <= k < |events| ==> events[k].stage in StageLabels
    ensures LabelSum(StageLabels, events) == Total(events)
  {
    if events == [] {
      LabelSumOfNothing(StageLabels);
    } else {
      var init := events[..|events| - 1];
      var e := events[|events| - 1];
      TotalByStages(init);
      assert events == init + [e];
      LabelSumAppend(StageLabels, init, e);
      ShareOfStage(e);
    }
  }

  lemma {:induction false} LabelSumOfNothing(labels: seq<string>)
    ensures LabelSum(labels, []) == 0.0
  {
    if labels != [] {
      LabelSumOfNothing(labels[1..]);
    }
  }

  /** There is no summary exactly when no annotation carries a name of the table. */
  lemma {:induction false} NoSummaryIffNoStageLabel(anns: seq<Annotation>)
    ensures SleepEvents(anns) == [] <==> forall k :: 0 <= k < |anns| ==> anns[k].description !in StageNames
  {
    if anns != [] {
      var init := anns[..|anns| - 1];
      NoSummaryIffNoStageLabel(init);
      assert forall k :: 0 <= k < |init| ==> init[k] == anns[k];
    }
  }

  /** An annotation adds its duration to the total of the stage its name maps to,
      and to no other. */
  lemma AnnotationAddsToItsStage(anns: seq<Annotation>, a: Annotation, stage: string)
    ensures var after := SleepEvents(anns + [a]);
      var before := SleepEvents(anns);
      StageTotal(after, stage) == StageTotal(before, stage)
        + (if a.description in StageNames && StageNames[a.description] == stage then a.duration else 0.0)
  {
    assert (anns + [a])[..|anns|] == anns;
    var before := SleepEvents(anns);
    if a.description in StageNames {
      var e := SleepEvent(StageNames[a.description], a.duration);
      assert SleepEvents(anns + [a]) == before + [e];
      assert (before + [e])[..|before|] == before;
    } else {
      assert SleepEvents(anns + [a]) == before;
    }
  }

  /** Stage 4 counts as N3, in both spellings. */
  lemma StageFourIsN3(anns: seq<Annotation>, onset: real, d: real)
    ensures StageTotal(SleepEvents(anns + [Annotation(onset, d, "Sleep stage 4")]), "N3")
      == StageTotal(SleepEvents(anns), "N3") + d
    ensures StageTotal(SleepEvents(anns + [Annotation(onset, d, "Sleep stage 4(eventUnknown)")]), "N3")
      == StageTotal(SleepEvents(anns), "N3") + d
  {
    AnnotationAddsToItsStage(anns, Annotation(onset, d, "Sleep stage 4"), "N3");
    AnnotationAddsToItsStage(anns, Annotation(onset, d, "Sleep stage 4(eventUnknown)"), "N3");
  }

  /** Both REM labels of the recording software count as REM. */
  lemma RemEventLabelsAreRem(anns: seq<Annotation>, onset: real, d: real)
    ensures StageTotal(SleepEvents(anns + [Annotation(onset, d, "БДГ")]), "REM")
      == StageTotal(SleepEvents(anns), "REM") + d
    ensures StageTotal(SleepEvents(anns + [Annotation(onset, d, LabelRemEvent)]), "REM")
      == StageTotal(SleepEvents(anns), "REM") + d
  {
    AnnotationAddsToItsStage(anns, Annotation(onset, d, "БДГ"), "REM");
    AnnotationAddsToItsStage(anns, Annotation(onset, d, LabelRemEvent), "REM");
  }
}
