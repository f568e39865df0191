# PSG analyser core in Dafny

This project models the annotation- and sample-sequence logic of the PSG
polysomnography analyser. The analyser reads an EDF recording of one night: its
annotation stream (30-second sleep-stage epochs, respiratory and arousal
events, artifact and heartbeat markers) and its sampled channels (ECG, SpO2,
respiration). From them it derives:

- the sleep-stage table and the measures built on it: efficiency,
  architecture, latencies and REM quality;
- the REM-cycle count, the stage-transition matrix, the hypnogram and its run
  statistics;
- event tallies and per-hour indices (AHI, ODI, snoring, arousal and
  fragmentation);
- a composite sleep-quality score;
- a per-sample validity mask with its continuous valid segments;
- heart-rate episodes and respiratory-rate pools.

Two small helpers sit beside it: a fixed-width EDF header reader with a
channel-type classifier, and the display-name classifier and stage summary of
the MNE-based report.

The repository has three generations of the analyser:

- `edf20.py`: plain functions;
- `edf30.py`: a `SleepAnalyzer` class;
- `psg_edf.py`: `ArtifactProcessor`, `SignalAnalyzer` and `SleepAnalyzer` classes.

Their logic is shared. They differ in a handful of switches and constants, which
the model gathers in `Settings.Config` with one constant per generation
(`Edf20`, `Edf30`, `PsgEdf`). Those switches are the sixth "Unknown" stage
bucket, the architecture ratios, the split of apnea types, the AHI severity
word, separate limb-movement types, the artifact end clamp, the heart-rate
episode minimum, the bradycardia penalty, the looser respiratory band and when
the interquartile trim runs.

Modules, one per concern of the source:

- `Base`: Python semantics the code relies on. This covers `Option`, `Result`
  over the exceptions it can raise, `int()` of a float, slice bounds,
  substring tests and ASCII case mapping.
- `Annotations`: annotations, the stage labels and the epoch test
  (`|duration - 30| < 1`).
- `Staging`: the stage table, efficiency, architecture, latencies and REM
  quality.
- `Analyzer`: the `SleepAnalyzer` object, which holds the loaded recording and
  the stage table that the staging step leaves in its fields.
- `StageSequence`: the epoch sequence, the compact hypnogram export, the
  REM-cycle state machine and the transition matrix.
- `Hypnogram`: clocked hypnogram epochs and their statistics.
- `Clock`: the `MM:SS` and `HH:MM:SS` strings.
- `Events`: event tallies, per-hour indices and severity.
- `Scoring`: the composite quality score.
- `Masking`: the artifact mask and the heartbeat-gap mask, cleared in place.
- `Segments`: maximal valid runs.
- `HeartRate`: RR and heart-rate bands, the episode hysteresis, the marker
  fallback and SpO2 sample counts.
- `Peaks`: the hand-written loops of the R-peak detector.
- `Respiration`: respiratory-rate pooling.
- `ChannelNames`: both first-match classifiers.
- `EdfText`: the text and number fields of the header.
- `EdfHeader`: the header layout and the reader.
- `MneSummary`: the stage summary of the MNE report.

Loops in the source are methods with loop invariants, each proved against a
specification function. The properties the source promises are then proved
about those functions as lemmas. Numeric-library calls (filters, percentiles,
the detector pipeline, summary statistics) are function-typed parameters. The
model states only what the surrounding code does with their results.

Durations, minutes and rates are Dafny `real`s, so the model computes exactly
where Python rounds floats. Integer sizes are unbounded, as Python's are.

## Model

| member | source | states |
|---|---|---|
| Annotations.StageOfLabel | psg_edf.py:405-412 | Only the six stage labels map to a stage. Unknown is produced only when its bucket is enabled. |
| Annotations.EpochStage | edf20.py:47-50 | An annotation is an epoch exactly when its label is a stage label and its duration is within 1 s of 30 s. The epoch's stage is then its label's stage. |
| Annotations.EpochCountsPartition | psg_edf.py:414-421 | The per-stage epoch counts add up to the number of scored epochs. |
| Annotations.NoUnknownEpochs | edf20.py:37-45 | Without the Unknown bucket, no epoch is ever counted as Unknown. |
| Annotations.RemEpochsAreRemLabels | edf20.py:310-311 | REM epochs never outnumber the annotations carrying the REM stage label. |
| Staging.Buckets | psg_edf.py:414 | The five scored stages always have a bucket. Unknown has one exactly when the configuration enables it. |
| Staging.CalculateStages | edf20.py:45-54 | The counting loop leaves one entry per bucket. Each entry holds that stage's epoch count and half as many minutes. |
| Staging.TallyEpoch | edf20.py:47-52 | One loop step: the table before the annotation and the table after it are both exact tallies of their prefixes. |
| Staging.TallyStep | edf20.py:49-52 | One annotation adds one epoch to exactly its own stage, or changes nothing. |
| Staging.TallyCountsAllEpochs | edf20.py:45-54 | The bucket counts sum to the number of scored epochs. |
| Staging.BedTimeIsAllEpochs | edf20.py:341 | Time in bed is half a minute for every counted epoch. |
| Staging.CalculateEfficiency | edf20.py:340-349 | Sleep and bed minutes are the table's, and WASO is the Wake minutes. With bed time, efficiency times bed time is 100 times sleep time. Without it, efficiency is 0. |
| Staging.EfficiencyBounds | edf20.py:340-349 | Efficiency is 0 with no bed time and always lies in [0,100]. It is 100 exactly when there is bed time, no Wake minutes and no Unknown minutes. |
| Staging.CalculateArchitecture | edf20.py:381-401 | The result is None exactly when there is no sleep. It raises ZeroDivisionError exactly when ratios are reported, there is sleep and the NREM minutes are zero. Ratios are present exactly in the configurations that report them (psg_edf.py:441-454 reports none). |
| Staging.ArchitecturePartition | edf20.py:391-398 | The four stage percentages each lie in [0,100] and sum to 100. The deep-sleep ratio times 100 equals the N3 percentage. |
| Staging.OnlyRemSleepRaises | edf20.py:397-398 | A night whose only sleep epoch is REM raises with ratios and succeeds without them. |
| Staging.CalculateLatencies | edf20.py:352-379 | The loop over `current_time`, `first_sleep_epoch` and `first_rem_epoch` returns the latencies of the first sleep and first REM epoch. A falsy time gives None. |
| Staging.SleepPrecedesRem | edf20.py:362-374 | With non-negative durations, a first REM epoch implies a first sleep epoch no later than it. |
| Staging.FirstSleepAt | edf20.py:366-369 | The recorded onset is the elapsed time before the first sleep epoch, and no earlier annotation is a sleep epoch. |
| Staging.SleepEpochDefinesOnset | edf20.py:366-369 | Any sleep epoch in the stream means an onset is recorded. |
| Staging.NoSleepInPrefix | edf20.py:366-369 | With no onset recorded, the stream holds no sleep epoch. |
| Staging.SleepAtZeroHidesLatencies | edf20.py:376-378 | A first sleep epoch at elapsed time 0 is falsy, so both latencies are None. |
| Staging.RemLatencyNonNegative | edf20.py:378 | With non-negative durations, a defined REM latency is at least 0. |
| Staging.TimeScore | edf20.py:319 | The REM-time score is 0, 20 or 40. |
| Staging.DensityScore | edf20.py:320 | The REM-density score is 0, 30 or 60. |
| Staging.CalculateRemQuality | edf20.py:303-333 | REM minutes are half the REM epochs. Events are the REM point markers. Density is 0 without REM minutes and otherwise events per minute. The score lies in [0,100]. |
| Staging.RemQualityScores | edf20.py:319-325 | The score is the time score plus the density score, so `min(..., 100)` never binds. The score is one of nine values. The status follows the 80/60/40 tiers. |
| Staging.RemCountIgnoresUnknown | psg_edf.py:571-596 | The REM epoch count is the same with or without the Unknown bucket. |
| Staging.RemQualityMatchesTable | edf20.py:310-316 | The REM minutes of the quality report equal the REM minutes of the stage table. |
| Analyzer.SleepAnalyzer.constructor | edf30.py:53-56 | A new analyser holds no recording and no stage table. |
| Analyzer.SleepAnalyzer.Load | edf30.py:58-65 | A successful load replaces the recording. A failed load keeps the previous one. The stage table is untouched. |
| Analyzer.SleepAnalyzer.CalculateStages | edf30.py:86-111 | Without a recording it returns None and keeps the old table. Otherwise it stores and returns the tally of the recording, and the efficiency step then reports half a minute of bed time per counted epoch. |
| Analyzer.SleepAnalyzer.SleepEfficiency | edf30.py:145-160 | The result is None exactly when no table is held. Otherwise efficiency lies in [0,100], with the table's sleep and bed minutes. |
| Analyzer.SleepAnalyzer.SleepArchitecture | edf30.py:191-211 | The result is None without a table or without sleep. It raises exactly when the ratios would divide by zero NREM minutes. |
| StageSequence.EpochSequence | edf20.py:1193-1199 | The sequence has one stage per scored epoch. |
| StageSequence.EpochSequenceScored | edf20.py:1193-1199 | The sequence holds only the five scored stages. |
| StageSequence.EpochSequenceCounts | edf20.py:1196-1199 | Each stage occurs in the sequence exactly as often as it is counted in the stage table. |
| StageSequence.Codes | edf20.py:1073-1087 | There is one code character per epoch, position by position. |
| StageSequence.ExportHypnogram | edf20.py:1082-1094 | The epoch count `e` equals the code string's length and the number of scored epochs. The epoch length `d` is 30. |
| StageSequence.ExportDecodes | edf20.py:1073-1087 | Every code decodes back to its epoch's stage. |
| StageSequence.ExportCountsAllStages | psg_edf.py:714-733 | The exported epoch count is the sum of the five stage counts. |
| StageSequence.CalculateRemCycles | edf20.py:1177-1231 | The flag loop's count equals the REM-cycle scan of the epoch sequence. |
| StageSequence.CyclesUseTwoRemEpochs | edf20.py:1204-1229 | The two flags always move together. Each closed cycle, plus an open one, used up REM epochs among the examined positions. |
| StageSequence.RemCyclesBound | edf20.py:1201-1210 | Fewer than 3 epochs give 0 cycles, and there are at most half as many cycles as REM epochs. |
| StageSequence.TwoRemEpochsMakeACycle | edf20.py:1215-1224 | `[N2,R,R,N2]` gives one cycle. |
| StageSequence.SingleRemEpochIsNoCycle | edf20.py:1215-1222 | `[N2,R,N2]` gives none and leaves a cycle open. |
| StageSequence.WakeAbortsOpenCycle | edf20.py:1226-1229 | `[N2,R,N2,R,W,R,N2]` gives none: Wake aborts the open cycle. |
| StageSequence.CalculateStageTransitions | edf20.py:1003-1030 | The result is None exactly for an empty sequence. Otherwise the total is the number of adjacent differing pairs, and cell (a,b) counts the adjacent pairs a→b with a ≠ b. |
| StageSequence.CountTransition | edf20.py:1019-1028 | One loop step keeps the total and the matrix exact for the longer prefix. |
| StageSequence.OffDiagonalSum | edf20.py:1019-1028 | The off-diagonal transitions out of each stage add up to the number of stage changes. |
| StageSequence.TransitionsSum | edf20.py:1003-1030 | The matrix cells sum to the total, and the diagonal is zero. |
| Hypnogram.EpochRecord | edf20.py:749-758 | An epoch's end minus its start is its duration in minutes. |
| Hypnogram.GenerateHypnogram | edf20.py:723-763 | The loop builds the clocked hypnogram of the scored epochs. |
| Hypnogram.HypnogramFollowsEpochs | edf20.py:743-752 | The hypnogram's stages are exactly the epoch sequence. |
| Hypnogram.HypnogramLast | edf20.py:743-761 | The last annotation appends one epoch or nothing. That epoch starts at the elapsed time of the earlier annotations and ends at the total elapsed time. |
| Hypnogram.HypnogramWithinRecording | edf20.py:741-761 | With non-negative durations, every epoch ends by the end of the annotation stream. |
| Hypnogram.HypnogramOrdered | edf20.py:741-761 | With non-negative durations, epochs are in time order and do not overlap. |
| Hypnogram.PeriodOf | edf20.py:870-875 | A period's epoch count is its run length. |
| Hypnogram.GetHypnogramStatistics | edf20.py:816-877 | The result is None exactly for an empty hypnogram. Otherwise: the epoch total, total minutes and stage changes are exact; per-stage minutes exist exactly for the stages present; each stage present has its longest period. |
| Hypnogram.ChangesAndDurations | edf20.py:830-845 | The loop counts the stage changes and sums each present stage's minutes. |
| Hypnogram.ScanEpoch | edf20.py:834-845 | One loop step keeps the change count and per-stage minutes exact for the longer prefix. |
| Hypnogram.AddLongest | edf20.py:848-875 | Each stage examined gets its longest period exactly when it occurs. |
| Hypnogram.LongestPeriod | edf20.py:849-875 | The period is the first longest maximal run of the stage, as `max(key=len)` picks it. |
| Hypnogram.FirstLongestIsFirstLongestRun | edf20.py:868-869 | The first segment of greatest length is the earliest longest maximal run. |
| Hypnogram.SumMinutes | edf20.py:823 | The total is the sum of the epoch durations. |
| Hypnogram.StageMinutesPartition | edf20.py:823-843 | Per-stage minutes add up to the total minutes. |
| Hypnogram.StageMinutesNearHalfPerEpoch | edf20.py:747-758 | Each epoch lasts between 29 and 31 s, so a stage's minutes stay within count×29/60 and count×31/60. |
| Clock.FloorDiv | edf20.py:998 | Python's `//`: the quotient q satisfies q·m ≤ x < (q+1)·m. |
| Clock.FloorMod | edf20.py:999-1000 | Python's `%`: the remainder lies in [0,m) and recomposes x. |
| Clock.Digits | edf20.py:1001 | A non-empty decimal string with no leading zero. |
| Clock.Pad2 | edf20.py:1001 | `:02d` gives at least two digits for a non-negative number. |
| Clock.DigitsRoundTrip | edf20.py:1001 | Reading the digits back gives the number. |
| Clock.Pad2RoundTrip | edf20.py:1001 | Reading a zero-padded field back gives the number. |
| Clock.TimeFieldsDecompose | edf20.py:996-1000 | Minutes and seconds are below 60, and 3600·h + 60·m + s is the floor of the seconds. |
| Clock.FormatTime | edf20.py:996-1001 | For a non-negative duration, splitting `HH:MM:SS` at the colons and reading the fields back gives the hours, minutes and seconds, with the hours non-negative. |
| Clock.FormatClock | edf20.py:756-757 | For a non-negative time, `MM:SS` reads back as two digit fields that recompose the floor of the time, with the seconds below 60. |
| Events.EventMapping | psg_edf.py:506-516 | A mapped label yields a key of the configured layout. The split layout never yields the combined apnea or hypopnea keys. |
| Events.EventCount | edf20.py:414-424 | A count never exceeds the number of annotations. |
| Events.CalculateRespiratoryEvents | edf20.py:403-426 | The loop leaves one counter per key of the layout, each the number of annotations that map to it. |
| Events.CountEvents | psg_edf.py:518-525 | The counting loop yields exactly the layout's keys with their counts. |
| Events.CountEvent | psg_edf.py:522-525 | One loop step keeps every counter exact for the longer prefix. |
| Events.EventCountStep | edf20.py:421-424 | One annotation adds one to the counter of its key and nothing elsewhere. |
| Events.EventCountIsLabelCount | edf20.py:414-424 | Each counter equals the number of annotations with that key's label, or 0 for a key with no label. |
| Events.MappingIsKeyLabel | psg_edf.py:506-516 | A label maps to a key exactly when it is that key's label. |
| Events.CombinedTallyByLabel | edf20.py:407-424 | In the combined layout, apneas, hypopneas, desaturations and snores are the counts of their labels. |
| Events.SplitTallyByLabel | psg_edf.py:518-528 | In the split layout, apneas are the obstructive, central and mixed apnea labels together, and hypopneas likewise. |
| Events.UnmappedLabelChangesNothing | psg_edf.py:522-525 | A label outside the mapping changes no counter. |
| Events.SplitSums | psg_edf.py:527-528 | The apnea and hypopnea totals are the sums of their three types. |
| Events.PerHour | edf20.py:441 | A rate is 0 without sleep. Otherwise it is non-negative, and the rate times the hours of sleep is the count. |
| Events.CalculateFragmentation | psg_edf.py:479-502 | Activations count their label. The arousal index is activations per hour. Fragmentation is the arousal index plus both limb labels per hour. The separated layout reports leg, periodic, bruxism and total counts from their labels. The combined layout reports both limb labels as one count. |
| Events.FragmentationLayouts | psg_edf.py:479-502 | Both layouts give the same fragmentation and arousal indices. The separated limb counts add up to the combined one. Fragmentation is arousals plus limb movements per hour, never below the arousal index. |
| Events.CalculateIndices | edf20.py:585-613 | The result is None exactly when there is no sleep. Otherwise it is the indices over the hours slept (Events.IndicesPerHour). |
| Events.IndicesInvert | edf20.py:596-602 | The AHI times the hours of sleep is apneas plus hypopneas. All indices are non-negative. The severity word is present exactly in the configurations that report it. |
| Events.RatesByLabel | psg_edf.py:541-552 | Over any positive number of hours, each index counts its annotation labels per hour. ODI counts the desaturation labels and the snoring index the snore labels. Without the split, the AHI counts the obstructive apnea and hypopnea labels, and no per-type AHIs are reported. With the split, each per-type AHI counts its type's apnea and hypopnea labels, and the AHI counts all six labels. |
| Events.CombinedTotalsByLabel | edf20.py:604-613 | Without the split, the four totals are the counts of the obstructive apnea, obstructive hypopnea, desaturation and snore labels. Neither per-type totals nor Cheyne-Stokes episodes are reported. |
| Events.ReportedTotalsByLabel | psg_edf.py:504-568 | With the split, each per-type total counts its own label, and the Cheyne-Stokes episodes count theirs. The desaturation and snore totals count their labels. The apnea and hypopnea totals are the sums of their three types. |
| Events.AhiIsSumOfTypes | psg_edf.py:542-550 | In the split layout, the AHI equals the obstructive plus central plus mixed AHIs. |
| Events.SeverityTiers | edf20.py:600-602 | The severity word follows the 5/15/30 AHI tiers, in both directions. |
| Scoring.FirstTier | edf30.py:369-372 | The loop with `break` awards the points of the first tier the value reaches. |
| Scoring.TierLoopsMatchChains | edf30.py:369-395 | The configured tier tables award the same points as the first version's if/elif chains (edf20.py:634-666). |
| Scoring.HeartRatePenalty | psg_edf.py:683-691 | The penalty is 0, 5, 10 or 15. |
| Scoring.PenaltyVersions | psg_edf.py:683-691 | Counting bradycardia too never lowers the penalty, and it changes nothing when there is no bradycardia. |
| Scoring.CycleBonus | edf20.py:682-685 | The REM-cycle bonus is 0, 5 or 10. |
| Scoring.GatherInputs | edf20.py:620-669 | It fails exactly when the architecture raised. Missing indices give an AHI of 0. Missing architecture gives percentages of 0. |
| Scoring.CalculateOverallQuality | edf20.py:632-701 | The accumulated score is capped at 100 from above only, truncated by `int()`, and given the status of its tier. |
| Scoring.TierPointsBounds | edf30.py:369-372 | A tier loop awards between 0 and its largest weight. |
| Scoring.RawScore | edf20.py:632-687 | With a REM-quality score in [0,100], the score before the cap lies in [−15,125]. |
| Scoring.ScoreBounds | edf20.py:632-699 | The raw score lies in [−15,125] and the reported score in [−15,100]. |
| Scoring.NoLowerClamp | edf20.py:687-699 | Zero efficiency and deep sleep, an AHI of 30, an arousal index of 20 and eleven tachycardia episodes give a reported score of −15, with the lowest status. |
| Scoring.NoSleepEarnsBreathingBonus | edf20.py:593-594 | With no sleep the indices are empty, so the AHI defaults to 0 and earns the full 30 points. |
| Scoring.StatusTiers | edf20.py:689-696 | The status follows the 85/70/50 tiers, in both directions. |
| Masking.AssignSlice | edf30.py:454 | `mask[start:end] = value`, done in place, with NumPy's slice bounds. |
| Masking.ArtifactMask | edf30.py:441-454 | The mask has one entry per sample. |
| Masking.ArtifactMaskPointwise | edf30.py:445-454 | A sample stays valid exactly when no artifact annotation's cleared range covers it. |
| Masking.ArtifactRegions | edf30.py:453-461 | There is at most one region per annotation. |
| Masking.GetArtifactMask | edf30.py:432-463 | The method's array and region list are the artifact mask and its regions. |
| Masking.LastSampleNeverCleared | edf30.py:451 | With the end clamped to the last index, the last sample is never cleared. |
| Masking.ClampExample | edf30.py:451 | A 10 s artifact over a 5-sample recording at 1 Hz clears every sample when clamped to the length, but leaves the last sample valid when clamped to the last index. |
| Masking.ArtifactClearsItsSamples | psg_edf.py:33-39 | With the end clamped to the length, every sample inside an artifact interval is cleared. |
| Masking.MarkerTimes | psg_edf.py:56 | There is at most one heartbeat onset per annotation. |
| Masking.CollectMarkerTimes | psg_edf.py:56 | The loop collects the heartbeat-marker onsets in order. |
| Masking.GapMaskPointwise | psg_edf.py:63-75 | A sample lies in a gap exactly when a marked silence between consecutive markers covers it. |
| Masking.GetHeartbeatGaps | psg_edf.py:48-81 | Fewer than two markers give no mask and no regions. Otherwise the result is a fresh mask with exactly the long silences set, plus one region per silence. |
| Masking.MarkGaps | psg_edf.py:60-81 | The loop over consecutive marker pairs builds the gap mask and regions. |
| Masking.GapStep | psg_edf.py:66-75 | One loop step keeps the mask and regions exact for one more interval. |
| Masking.MarkInterval | psg_edf.py:67-79 | A silence longer than 5 s and at least 10 s long, starting inside the recording, is set in the mask. |
| Masking.ClearGaps | psg_edf.py:43 | `valid_mask &= ~gap_mask`, in place. |
| Masking.GetArtifactMaskWithGaps | psg_edf.py:24-46 | The final mask is the artifact mask AND NOT the gap mask. The regions are the artifact regions followed by the gap regions. |
| Segments.FindContinuousSegments | edf30.py:626-643 | The segments are ascending, and each is a maximal all-valid run of at least the minimum length. Every such run is listed. |
| Segments.ScanSample | edf30.py:630-636 | One loop step opens, extends or closes the current run and keeps the listed segments exact. |
| Segments.CloseRun | edf30.py:634-639 | Closing a run appends it exactly when it is long enough. |
| Segments.MaximalRunUnique | edf30.py:626-643 | A maximal run is determined by its end. |
| Segments.SegmentationUnique | edf30.py:626-643 | Two lists that are both ascending, sound and complete for the same mask are equal, so the scan's result is the only one. |
| Segments.FirstLongest | edf20.py:868-869 | The first index of greatest length. |
| HeartRate.RrIntervals | edf30.py:542 | There is one interval per consecutive pair of peaks. |
| HeartRate.RatesOf | edf30.py:547 | There is one rate per interval. |
| HeartRate.HeartRateMetrics | edf30.py:539-553 | Every kept interval is in (0.3, 2.0) and every kept rate in [40,150]. Never exactly one interval is kept. There are no more rates than intervals, and no more intervals than peaks. No intervals means no rates. |
| HeartRate.MetricsBands | edf30.py:539-553 | Both outputs are empty exactly when at most one interval is in band. Otherwise the intervals kept are exactly those in (0.3, 2.0), and each rate lies in [40,150] and is 60 over a kept interval. |
| HeartRate.EpisodesAreLongRuns | edf30.py:572-598 | The hysteresis count equals the number of maximal runs at least the minimum long. |
| HeartRate.LongerMinimumFewerEpisodes | edf30.py:16 | Raising the minimum never adds episodes. |
| HeartRate.DetectHeartRateEpisodes | edf30.py:564-598 | The loop's tachycardia and bradycardia counters are the episode counts of the rates above 100 and below 50, independently. |
| HeartRate.Track | edf30.py:579-596 | One loop step keeps a counter's run length, flag and episode count exact. |
| HeartRate.EpisodeExamples | edf30.py:579-583 | Ten samples open an episode at minimum 10 and nine do not. With minimum 1 (edf20.py:1157-1161) two separated samples are two episodes. |
| HeartRate.AnalyzeFromMarkers | edf30.py:600-624 | The result is the marker summary. The method is "markers", all four rate fields are None and no regions are excluded. Tachycardia counts the labels containing the tachycardia word. Bradycardia counts the others containing the bradycardia word. |
| HeartRate.MarkerCountsDisjoint | edf30.py:617-620 | Because of the `elif`, the two marker counts together never exceed the annotations. |
| HeartRate.AnalyzeHeartRate | edf30.py:465-519 | The ECG path is taken exactly with more than 100 peaks and more than 5 valid rates. Its average, minimum, maximum and variability are then the statistics of the kept rates and intervals, its episodes are the long runs, and the excluded regions are reported. Otherwise the result is exactly the marker summary, bradycardia count included. |
| HeartRate.SamplesBelow | edf30.py:746-748 | A below-threshold count never exceeds the samples. |
| HeartRate.SamplesBelowMonotone | edf30.py:746-751 | A higher threshold never counts fewer samples. |
| HeartRate.Below90AtLeastBelow85 | edf30.py:746-751 | On the same mask, samples below 90 are at least as many as samples below 85. |
| Peaks.Picked | edf30.py:682-691 | The picked indices lie in the examined range, and there are no more of them than samples examined. |
| Peaks.PickPeaks | edf30.py:682-691 | The loop picks exactly the greedy selection. |
| Peaks.PickedSound | edf30.py:682-691 | Peaks are strictly increasing, each is a strict local maximum above its threshold, and consecutive peaks are at least the minimum distance apart. |
| Peaks.PickedGreedy | edf30.py:689-691 | A candidate that was skipped lies within the minimum distance after an earlier picked peak. |
| Peaks.FirstNotHighest | edf30.py:689-691 | The first candidate is kept even when a higher one follows within the distance. |
| Peaks.WindowStart | edf30.py:667-675 | Each sample's window starts at a multiple of the overlap, no more than one overlap before it. |
| Peaks.PartialStep | edf30.py:667-675 | One window's fill keeps the thresholds equal to the partial specification. |
| Peaks.Fill | edf30.py:675 | Filling a slice changes exactly that slice. |
| Peaks.AdaptiveThresholds | edf30.py:662-679 | Every sample's threshold is the percentile of the last window covering it. |
| Peaks.AboveLevel | edf30.py:696-702 | Validation keeps no more peaks than it is given. |
| Peaks.AboveLevelMembers | edf30.py:697-701 | A peak is kept exactly when its ECG sample exceeds the level. |
| Peaks.AboveLevelKeepsOrder | edf30.py:696-702 | Validation keeps the peaks strictly increasing. |
| Peaks.RangeStep | edf30.py:667 | `range` accepts only a positive integer step. |
| Peaks.DetectRPeaks | edf30.py:644-708 | A float or non-positive half-window gives no peaks. An integer rate gives the validated greedy peaks over the adaptive thresholds. |
| Peaks.FloatRateFindsNoPeaks | edf30.py:662-667 | A float sampling rate always makes `range` raise. |
| Peaks.DetectWithWindow | edf30.py:662-704 | With an integer window, the result is the validated greedy peaks: strictly increasing, in range and above the level. |
| Peaks.PsgDetectOutcome | psg_edf.py:146-164 | Signals of at most 100 samples raise UnboundLocalError. Longer ones give the pipeline's result. |
| Peaks.PsgDetectRPeaks | psg_edf.py:144-169 | Signals of at most 100 samples give no peaks. Longer ones give the pipeline's peaks, or none when it raises. |
| Peaks.ShortSignalNoPeaks | psg_edf.py:144-169 | Signals of at most 100 samples give no peaks. |
| Peaks.Shift | edf30.py:532 | Shifting keeps one index per peak. |
| Peaks.CleanRPeaks | edf30.py:521-537 | With a usable mask, the mask's first `max_samples` entries have a segmentation with ten-second minimum. The peaks are the concatenated shifted detections of its segments, skipping those of five seconds or less, and are strictly increasing valid samples. Otherwise they are the detector's peaks on the whole signal. |
| Peaks.MergeSegments | edf30.py:528-535 | The loop over the segments leaves exactly the merged detections, ascending and on valid samples. |
| Peaks.MergedPeaksStep | edf30.py:533 | One more segment appends exactly its own detections. |
| Peaks.SegmentPeaks | edf30.py:527-533 | The result is the segment's detections: none for a segment no longer than 5 s, otherwise the local peaks shifted by the segment start. They land inside the segment on valid samples. |
| Peaks.MergeStep | edf30.py:533 | Appending a later segment's peaks keeps the merged list ascending and valid. |
| Respiration.PoolRates | psg_edf.py:337-358 | There is no signal exactly when no rate was measured. A pool, when there is one, is not empty. |
| Respiration.PoolBounds | psg_edf.py:341-358 | Pooled rates lie in the fallback band, and in the strict band when at least 5 rates passed it. Each rate occurs no more often than it was measured. |
| Respiration.ValidInBand | psg_edf.py:341-347 | The banded rates lie in the fallback band and are a sub-multiset of the measured ones. |
| Respiration.PoolFromValid | psg_edf.py:349-358 | The trimmed pool is a sub-multiset of the banded rates. |
| Respiration.PoolOutcomes | edf30.py:795-818 | Rates are invalid exactly when some were measured and none is in band. A pool is the banded rates, or a trim of at least 3. |
| Respiration.SmallPoolUntrimmed | psg_edf.py:351-358 | With at most 5 banded rates, the third version pools them untrimmed. |
| Respiration.SignalQualityOfPool | edf30.py:795-823 | The quality word is "no_signal" exactly when no rate was measured. It is "invalid_rates" exactly when no rate fell in either band. It is "good" exactly when the final pool holds at least 10 rates, and "moderate" otherwise. "good" needs at least 10 measured rates inside the fallback band. |
| Respiration.FilterNarrower | edf30.py:801-803 | Filtering with the strict band keeps no more rates than filtering with the looser fallback band. |
| ChannelNames.NoRulePasses | edf_mne.py:50-51 | When no test passes, the fallback is returned. For the display name the fallback is the name unchanged. |
| ChannelNames.FirstPassingRuleDecides | edf_read.py:151-172 | The first passing test decides the label. |
| ChannelNames.ChannelType | edf_read.py:148-174 | The type is "Other" exactly when no keyword occurs in the upper-cased name. Otherwise it is the label of the first rule whose keyword does. |
| ChannelNames.ChannelTypeLabels | edf_read.py:148-174 | The type is "Other" exactly when no keyword test passes. Otherwise it is one of the listed labels. |
| ChannelNames.TypeLabelsAreNotOther | edf_read.py:151-172 | No branch returns "Other". |
| ChannelNames.DisplayName | edf_mne.py:8-51 | A name no rule recognises is returned unchanged. Otherwise the result is the label of the first rule that passes. |
| ChannelNames.FirstMatchDecides | edf_mne.py:8-51 | For any chain, no passing rule gives the fallback and the first passing rule gives its label. |
| ChannelNames.FirstMatchLabel | edf_mne.py:8-51 | A display name is the fallback or one of the rule labels, and never the fallback when a rule passes and no label equals it. |
| ChannelNames.NoLowerCaseInUpper | edf_mne.py:28-31 | An upper-cased name never contains `LMl` or `LMr`. |
| ChannelNames.LegLabelsOnlyFromMontages | edf_mne.py:28-31 | As written, the leg branches pass exactly when the name contains T3-T5 or T4-T6. |
| ChannelNames.CorrectedDisplayRules | edf_mne.py:8-49 | The corrected chain has as many branches as the original. |
| ChannelNames.CorrectedLegCodes | edf_mne.py:28-29 | In the corrected chain, a name containing the left-leg code in any case is labelled as the left leg when no earlier branch claims it. |
| EdfText.Clip | edf_read.py:14 | A field slice is at most its width, even past the end of the file. |
| EdfText.ClipOfLayout | edf_read.py:14-23 | A field laid out at its offset is read back exactly. |
| EdfText.AsciiDecode | edf_read.py:14 | `decode('ascii', errors='ignore')` yields ASCII text no longer than the bytes. |
| EdfText.DecodeAppend | edf_read.py:14 | Decoding distributes over concatenation. |
| EdfText.DecodeEncode | edf_read.py:14 | Decoding the bytes of an ASCII string gives the string back. |
| EdfText.DecodeLength | edf_read.py:14 | Nothing is dropped exactly when every byte is ASCII. |
| EdfText.LStripFacts | edf_read.py:14 | Left strip removes exactly the leading whitespace. |
| EdfText.RStripFacts | edf_read.py:14 | Right strip removes exactly the trailing whitespace. |
| EdfText.StripTrimmed | edf_read.py:14 | A stripped string has no whitespace at either end. |
| EdfText.StripMiddle | edf_read.py:14 | A stripped string is the middle of the original between all-space margins. |
| EdfText.StripPadded | edf_read.py:14 | Stripping a space-padded field returns the field. |
| EdfText.Text | edf_read.py:14 | A field's text is trimmed ASCII, no longer than the field. |
| EdfText.ParseInt | edf_read.py:19 | A failed `int()` raises ValueError. |
| EdfText.ParseFloat | edf_read.py:22 | A failed `float()` raises ValueError. |
| EdfText.IntRoundTrip | edf_read.py:19 | `int()` of a decimal rendering gives the number back. |
| EdfText.FloatAgreesWithInt | edf_read.py:22 | `float()` accepts every text `int()` accepts, with the same value. |
| EdfText.FloatOfIntText | edf_read.py:22 | `float()` of a decimal rendering gives the number. |
| EdfText.EmptyTextsFail | edf_read.py:19-23 | A blank field makes `int()` and `float()` raise. |
| EdfText.HalfExample | edf_read.py:22 | `float("0.5")` is 0.5. |
| EdfText.SignedFractionExample | edf_read.py:22 | `float("-.5")` is −0.5. |
| EdfText.MalformedNumbers | edf_read.py:19-22 | `float(".")` and `int("1.0")` raise. |
| EdfHeader.FixedFieldsTile | edf_read.py:14-23 | The ten fixed fields tile bytes [0,256) without gap or overlap. |
| EdfHeader.ParseHeader | edf_read.py:14-23 | A failure of the fixed part is a ValueError from `int()` or `float()`. |
| EdfHeader.SeeksSkipEarlierBlocks | edf_read.py:41-109 | Each seek multiplier is the sum of the earlier field widths, and the widths sum to 224. |
| EdfHeader.FieldInside | edf_read.py:41-116 | Field k of channel i lies inside block k of the signal part. |
| EdfHeader.FieldsDisjoint | edf_read.py:41-116 | No two per-signal fields overlap. |
| EdfHeader.FieldsCover | edf_read.py:41-116 | Every byte of the signal part belongs to some field. |
| EdfHeader.ReadStep | edf_read.py:42-45 | Reading a field from the current position equals reading it at its offset, and advances the position. |
| EdfHeader.ReadFields | edf_read.py:41-45 | The per-channel loop reads each channel's field at its offset. |
| EdfHeader.ReadSignalFields | edf_read.py:41-116 | A negative seek raises exactly when some block start is negative. Otherwise there are nine columns of per-channel texts at their offsets. |
| EdfHeader.BuildChannels | edf_read.py:119-134 | No channels give an empty list. A zero record duration with channels raises ZeroDivisionError. Otherwise there is one record per channel. |
| EdfHeader.ReadEdfHeader | edf_read.py:5-146 | The reader returns the header specification's result. |
| EdfHeader.SeekFailsExactly | edf_read.py:41-109 | A seek goes negative exactly when the channel count is −2 or less. |
| EdfHeader.ReadHeader | edf_read.py:5-146 | A fixed-part failure is passed on. On success the header is the parsed fixed part. There is one channel per signal, numbered from 1 and typed by its name, with a rate that times the record duration gives its samples per record. |
| EdfHeader.HeaderOutcome | edf_read.py:19-131 | The reader fails exactly when the fixed part fails, the channel count is −2 or less, or there are channels and a zero duration. A channel count of 0 or −1 gives no channels. |
| EdfHeader.ChannelsOutcome | edf_read.py:41-134 | The channel list fails exactly on a negative seek or a zero duration with channels. |
| EdfHeader.ChannelsShape | edf_read.py:119-134 | There are exactly as many channels as the count, with index i+1, the classified type, and a rate consistent with the samples per record. |
| EdfHeader.ChannelOfShape | edf_read.py:120-133 | One record carries its index, name, classified type and rate. |
| EdfHeader.EmptyLabelIsOther | edf_read.py:173-174 | An empty name is "Other". |
| EdfHeader.BlankTextsGiveFallbacks | edf_read.py:66-116 | Blank numeric fields give the fallbacks: physical bounds 0.0, digital bounds −32768 and 32767, and 0 samples. |
| EdfHeader.TruncatedFileDefaults | edf_read.py:66-116 | A file that ends with the fixed part gives every channel the fallbacks. |
| EdfHeader.RecordSizeAdds | edf_read.py:273 | The record size of two channel lists is the sum of their sizes. |
| EdfHeader.RecordSizeBounds | edf_read.py:273 | The record size is even and at least twice any channel's samples. |
| EdfHeader.FindAnnotationChannel | edf_read.py:256-260 | The result is the first channel whose lower-cased name contains "annotation", or None exactly when there is none. |
| EdfHeader.ReadAnnotationsSimple | edf_read.py:254-290 | No annotation channel gives an empty list. Otherwise a negative header size raises, else the result is one record with the channel, its samples and twice the total samples. |
| MneSummary.TableTargets | edf_mne.py:58-73 | Every stage label maps into the five summary stages. |
| MneSummary.SleepEvents | edf_mne.py:76-82 | There is at most one event per annotation, each with a summary stage. |
| MneSummary.AnalyzeSleepStages | edf_mne.py:53-97 | The result is None exactly when no label maps. Otherwise there is a duration for exactly the stages that occur, each the sum of its events, and a total of all events, Wake included. |
| MneSummary.CollectSleepEvents | edf_mne.py:76-82 | The loop collects the mapped events in order. |
| MneSummary.SumByStage | edf_mne.py:88-90 | The loop sums the durations of each stage that occurs. |
| MneSummary.AccumulateStep | edf_mne.py:89-90 | One event adds its duration to its own stage only. |
| MneSummary.SumOfStages | edf_mne.py:92 | The sum over the stages is the sum over all events. |
| MneSummary.TotalByStages | edf_mne.py:92 | Summing the five stage totals gives the total of all events. |
| MneSummary.NoSummaryIffNoStageLabel | edf_mne.py:76-85 | There are no events exactly when no annotation carries a stage label. |
| MneSummary.AnnotationAddsToItsStage | edf_mne.py:76-90 | A new annotation adds its duration to its mapped stage and nothing to the others. |
| MneSummary.StageFourIsN3 | edf_mne.py:63-70 | Both stage-4 labels add to N3. |
| MneSummary.RemEventLabelsAreRem | edf_mne.py:65-72 | The БДГ labels add to REM. |

## Left out

- Loading through `mne.io.read_raw_edf` and channel access are outside the model. Recordings arrive as annotation and sample sequences. A loaded recording with no samples still counts as present, where Python's truthiness of `raw` might differ.
- Numeric library calls become function parameters, and only the code around them is modelled. These are `butter`, `filtfilt`, `medfilt`, `welch`, `find_peaks`, `percentile`, `median`, `std`, the interquartile bounds and the heart-rate variability statistics.
- The `find_peaks`-based detectors of edf20.py and psg_edf.py are parameters for the same reason. Only psg_edf.py's short-signal path is modelled.
- Floating-point rounding and summation order are not modelled. Reals are exact, so sums such as the four architecture percentages come out exact where Python's floats may differ in the last bit. `round()` of reported values is left out.
- SpO2 minute extrapolation and the other statistics of the SpO2 channel are left out. Only the sample counts below 90 and 85 are modelled.
- HeartRate.AnalyzeHeartRate: the edf20.py wrapper around the episode loop (ten minutes of signal, more than ten peaks, more than five valid intervals) is not modelled. Only its episode loop is.
- Peaks.RangeStep treats a non-positive integer step as an error. Python raises for a zero step, and a negative rate is rejected earlier by the filter and smoothing calls, which are outside the model.
- Case mapping is ASCII only. Cyrillic letters are left as they are, which does not affect any keyword the classifiers test.
- EdfText.ParseInt and EdfText.ParseFloat accept decimal digits with an optional sign and, for floats, one decimal point. Python's `int()` and `float()` also accept underscores, non-ASCII digits, exponents, `inf` and `nan`, which the model rejects.
- The heart-rate functions take the sampling frequency as positive, and the SpO2 counts take the mask and the values as equal length, as the callers always supply them.
- EdfHeader.ReadAnnotationsSimple does not model the bytes of the first record. The source reads them and returns nothing derived from them.
- The calling guards of the report functions (`if not raw`, `hasattr(raw, 'annotations')`) are not modelled. The quality score takes the results of the earlier steps as inputs.
- SQL and JSON generation, file writing, UUID extraction, `print_*` reports, timestamps, plotting, batch orchestration with threads and locks, and the SET-clause rendering of `create_sql_update` are formatting, I/O or concurrency. They are not part of this model.
- The REM-cycle scan follows the code. The comment at edf20.py:1209 calls NREM → REM → NREM a cycle. But the `if` that opens a cycle at edf20.py:1216 shadows the `elif` at edf20.py:1221 that would close it on the same epoch, and Wake aborts an open cycle (edf20.py:1226-1229). So `[N2,R,N2]` and `[N2,R,N2,R,W,R,N2]` both count 0 (StageSequence.SingleRemEpochIsNoCycle, StageSequence.WakeAbortsOpenCycle).

## Findings

| source | as written | input that shows it | evidently intended | confidence | as-written member | corrected member |
|---|---|---|---|---|---|---|
| edf30.py:451 | the artifact end is clamped to `total_samples - 1`, an exclusive slice end | a 10 s artifact over a 5-sample recording at 1 Hz leaves sample 4 valid | clamp to `total_samples`, as psg_edf.py:36 does | high, not executed | Masking.ClampExample | Masking.ArtifactClearsItsSamples |
| edf30.py:662-667 | `overlap = window_size_adaptive // 2` is a float when `sfreq` is a float, and `range` rejects a float step, so the `except` returns no peaks (the first ensures of Peaks.DetectRPeaks) | any recording whose sampling rate is a float, such as 256.0 | an integer window, `int(5 * sfreq)` | high, not executed | Peaks.FloatRateFindsNoPeaks, Peaks.DetectRPeaks | Peaks.DetectWithWindow |
| edf_mne.py:28-31 | the codes `LMl` and `LMr` are tested against the upper-cased name | a channel named `LMl`, which gets no leg label | test `LML` and `LMR` on the upper-cased name | high, not executed | ChannelNames.LegLabelsOnlyFromMontages | ChannelNames.CorrectedLegCodes |
