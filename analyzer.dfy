/** The analyser object of the class-based versions. It holds the loaded
    recording and the stage table that the staging step leaves behind; the
    efficiency and architecture steps read that table instead of recounting. */
module Analyzer {
  import opened Base
  import opened Settings
  import opened Annotations
  import opened Staging

  class SleepAnalyzer {
    const cfg: Config
    /** The annotations of the loaded recording; `None` until a load succeeds. */
    var raw: Option<seq<Annotation>>
    /** The table of the last staging run; `None` until one has run. */
    var stages: Option<StageTable>

    /** A held table is one the staging loop built. */
    predicate Valid()
      reads this
    {
      stages.Some? ==> WellFormed(stages.value)
    }

    constructor(cfg: Config)
      ensures this.cfg == cfg && raw.None? && stages.None? && Valid()
    {
      this.cfg := cfg;
      raw := None;
      stages := None;
    }

    /** Loading a recording: the file is read outside the model and arrives as
        its annotations, or as `None` when the reader failed, which leaves the
        previous recording in place. */
    method Load(loaded: Option<seq<Annotation>>)
      requires Valid()
      modifies this
      ensures Valid()
      ensures raw == (if loaded.Some? then loaded else old(raw))
      ensures stages == old(stages)
    {
      if loaded.Some? {
        raw := loaded;
      }
    }

    /** The staging step: without a recording it returns `None` and keeps the old
        table; otherwise it stores and returns the tally of the recording, whose
        efficiency step then finds every counted epoch in bed. */
    method CalculateStages() returns (r: Option<StageTable>)
      requires Valid()
      modifies this
      ensures Valid() && raw == old(raw)
      ensures raw.None? ==> r.None? && stages == old(stages)
      ensures raw.Some? ==> r.Some? && stages == r && IsTallyOf(r.value, raw.value, cfg.unknownStage)
      ensures raw.Some? ==>
        SleepEfficiency().Some?
        && SleepEfficiency().value.totalBedTime == EpochTotal(raw.value, cfg.unknownStage) as real / 2.0
    {
      if raw.None? {
        return None;
      }
      var t := Staging.CalculateStages(raw.value, cfg.unknownStage);
      BedTimeIsAllEpochs(t, raw.value, cfg.unknownStage);
      stages := Some(t);
      r := stages;
    }

    /** The efficiency step: nothing before staging, otherwise a percentage. */
    function SleepEfficiency(): (r: Option<Efficiency>)
      requires Valid()
      reads this
      ensures r.None? <==> stages.None?
      ensures r.Some? ==>
        0.0 <= r.value.sleepEfficiency <= 100.0
        && r.value.totalSleepTime == SleepMinutes(stages.value)
        && r.value.totalBedTime == BedMinutes(stages.value)
    {
      if stages.None? then None
      else
        EfficiencyBounds(stages.value);
        Some(CalculateEfficiency(stages.value))
    }

    /** The architecture step: nothing before staging or without sleep, and the
        ratio error of the configurations that report ratios. */
    function SleepArchitecture(): (r: Result<Option<Architecture>>)
      requires Valid()
      reads this
      ensures r == Ok(None) <==> stages.None? || SleepMinutes(stages.value) == 0.0
      ensures r.Err? <==>
        stages.Some? && cfg.architectureRatios
        && SleepMinutes(stages.value) != 0.0 && NremMinutes(stages.value) == 0.0
    {
      if stages.None? then Ok(None) else CalculateArchitecture(stages.value, cfg.architectureRatios)
    }
  }
}
