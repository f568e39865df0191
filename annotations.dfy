/** The annotation stream of a recording and the labels the analyser looks for. */
module Annotations {
  import opened Base

  /** One annotation: onset and duration in seconds, and its label text. */
  datatype Annotation = Annotation(onset: real, duration: real, description: string)

  // Sleep-stage labels written by the recording software.
  const LabelWake := "Sleep stage W(eventUnknown)"
  const LabelN1 := "Sleep stage 1(eventUnknown)"
  const LabelN2 := "Sleep stage 2(eventUnknown)"
  const LabelN3 := "Sleep stage 3(eventUnknown)"
  const LabelRem := "Sleep stage R(eventUnknown)"
  const LabelUnknown := "Sleep stage Unknown(eventUnknown)"

  // Point events.
  const LabelRemEvent := "БДГ(pointPolySomnographyREM)"
  const LabelObstructiveApnea := "Обструктивное апноэ(pointPolySomnographyObstructiveApnea)"
  const LabelCentralApnea := "Центральное апноэ(pointPolySomnographyCentralApnea)"
  const LabelMixedApnea := "Смешанное апноэ(pointPolySomnographyMixedApnea)"
  const LabelObstructiveHypopnea := "Обструктивное гипопноэ(pointPolySomnographyHypopnea)"
  const LabelCentralHypopnea := "Центральное гипопноэ(pointPolySomnographyCentralHypopnea)"
  const LabelMixedHypopnea := "Смешанное гипопноэ(pointPolySomnographyMixedHypopnea)"
  const LabelDesaturation := "Десатурация(pointPolySomnographyDesaturation)"
  const LabelSnore := "Храп(pointPolySomnographySnore)"
  const LabelCheyneStokes := "Дыхание Чейна-Стокса(pointPolySomnographyCheyneStokesRespiration)"
  const LabelActivation := "Активация(pointPolySomnographyActivation)"
  const LabelLegMovement := "Движение конечностей(pointPolySomnographyLegsMovements)"
  const LabelPeriodicLegMovement := "Периодические движения конечностей(pointPolySomnographyPeriodicalLegsMovements)"
  const LabelBruxism := "Бруксизм(pointBruxism)"
  const ArtifactMarker := "Артефакт(blockArtefact)"
  const HeartbeatMarker := "pointIlluminationSensorValue"
  const TachycardiaWord := "Тахикардия"
  const BradycardiaWord := "Брадикардия"

  datatype Stage = Wake | N1 | N2 | N3 | REM | Unknown

  predicate IsSleepStage(s: Stage) { s == N1 || s == N2 || s == N3 || s == REM }
  predicate IsNrem(s: Stage) { s == N1 || s == N2 || s == N3 }

  /** A scored epoch lasts 30 s give or take strictly less than one second. */
  predicate IsEpochDuration(d: real) { -1.0 < d - 30.0 < 1.0 }

  /** The stage a label names; the Unknown label maps only when the
      configuration has an Unknown bucket. */
  function StageOfLabel(text: string, withUnknown: bool): (r: Option<Stage>)
    ensures r == Some(Unknown) <==> withUnknown && text == LabelUnknown
    ensures r.Some? && r.value != Unknown ==>
      text == [LabelWake, LabelN1, LabelN2, LabelN3, LabelRem][StageIndex(r.value)]
  {
    if text == LabelWake then Some(Wake)
    else if text == LabelN1 then Some(N1)
    else if text == LabelN2 then Some(N2)
    else if text == LabelN3 then Some(N3)
    else if text == LabelRem then Some(REM)
    else if withUnknown && text == LabelUnknown then Some(Unknown)
    else None
  }

  /** Position of a stage in the order Wake, N1, N2, N3, REM, Unknown. */
  function StageIndex(s: Stage): (k: nat)
    ensures k < 6
    ensures s != Unknown ==> k < 5
  {
    match s
    case Wake => 0
    case N1 => 1
    case N2 => 2
    case N3 => 3
    case REM => 4
    case Unknown => 5
  }

  /** The stage an annotation scores, if it is a stage label of epoch length. */
  function EpochStage(a: Annotation, withUnknown: bool): (r: Option<Stage>)
    ensures r.Some? <==> IsEpochDuration(a.duration) && StageOfLabel(a.description, withUnknown).Some?
    ensures r.Some? ==> StageOfLabel(a.description, withUnknown) == r
  {
    if IsEpochDuration(a.duration) then StageOfLabel(a.description, withUnknown) else None
  }

  /** Number of annotations whose label is exactly `text`. */
  function CountLabel(anns: seq<Annotation>, text: string): (n: nat)
    ensures n <= |anns|
  {
    if anns == [] then 0
    else CountLabel(anns[..|anns| - 1], text) + (if anns[|anns| - 1].description == text then 1 else 0)
  }

  /** Number of annotations whose label contains `word`. */
  function CountContaining(anns: seq<Annotation>, word: string): (n: nat)
    ensures n <= |anns|
  {
    if anns == [] then 0
    else CountContaining(anns[..|anns| - 1], word) + (if Contains(anns[|anns| - 1].description, word) then 1 else 0)
  }

  /** Number of annotations scoring an epoch of stage `s`. */
  function EpochCount(anns: seq<Annotation>, s: Stage, withUnknown: bool): (n: nat)
    ensures n <= |anns|
  {
    if anns == [] then 0
    else EpochCount(anns[..|anns| - 1], s, withUnknown)
         + (if EpochStage(anns[|anns| - 1], withUnknown) == Some(s) then 1 else 0)
  }

  /** Number of annotations scoring any epoch. */
  function EpochTotal(anns: seq<Annotation>, withUnknown: bool): (n: nat)
    ensures n <= |anns|
  {
    if anns == [] then 0
    else EpochTotal(anns[..|anns| - 1], withUnknown)
         + (if EpochStage(anns[|anns| - 1], withUnknown).Some? then 1 else 0)
  }

  /** Sum of the durations of all annotations (the running clock of the loops). */
  function Elapsed(anns: seq<Annotation>): real {
    if anns == [] then 0.0 else Elapsed(anns[..|anns| - 1]) + anns[|anns| - 1].duration
  }

  /** Every annotation that scores an epoch is counted under exactly one stage. */
  lemma {:induction false} EpochCountsPartition(anns: seq<Annotation>, withUnknown: bool)
    ensures EpochCount(anns, Wake, withUnknown) + EpochCount(anns, N1, withUnknown)
          + EpochCount(anns, N2, withUnknown) + EpochCount(anns, N3, withUnknown)
          + EpochCount(anns, REM, withUnknown) + EpochCount(anns, Unknown, withUnknown)
         == EpochTotal(anns, withUnknown)
  {
    if anns != [] {
      EpochCountsPartition(anns[..|anns| - 1], withUnknown);
    }
  }

  /** Without an Unknown bucket no annotation is scored as Unknown. */
  lemma {:induction false} NoUnknownEpochs(anns: seq<Annotation>)
    ensures EpochCount(anns, Unknown, false) == 0
  {
    if anns != [] {
      NoUnknownEpochs(anns[..|anns| - 1]);
    }
  }

  /** Every REM epoch carries the REM stage label, so the REM epochs are at most
      the annotations with that label. */
  lemma {:induction false} RemEpochsAreRemLabels(anns: seq<Annotation>, withUnknown: bool)
    ensures EpochCount(anns, REM, withUnknown) <= CountLabel(anns, LabelRem)
  {
    if anns != [] {
      RemEpochsAreRemLabels(anns[..|anns| - 1], withUnknown);
    }
  }
}
