/** The three generations of the analyser share their logic and differ only
    in a handful of switches and constants, collected here. */
module Settings {

  datatype Config = Config(
    unknownStage: bool,          // a sixth stage bucket for 'Sleep stage Unknown'
    architectureRatios: bool,    // architecture also reports deep-sleep and REM/NREM ratios
    splitApneaTypes: bool,       // obstructive / central / mixed events counted apart
    ahiSeverity: bool,           // indices carry a severity word for the AHI
    separateLimbTypes: bool,     // limb, periodic-limb and bruxism events reported apart
    maskClampToLast: bool,       // artifact ends clamped to the last sample instead of the length
    minConsecutiveEvents: nat,   // heart-rate samples a run needs before it opens an episode
    penaltyCountsBradycardia: bool, // the heart-rate penalty also looks at bradycardia
    fallbackBandMax: real,       // upper edge of the looser respiratory-rate band
    trimOnlyAboveFive: bool      // the interquartile trim runs only on more than five rates
  )

  /** The function-based first version. */
  const Edf20 := Config(
    unknownStage := false, architectureRatios := true, splitApneaTypes := false,
    ahiSeverity := true, separateLimbTypes := false, maskClampToLast := true,
    minConsecutiveEvents := 1, penaltyCountsBradycardia := false,
    fallbackBandMax := 30.0, trimOnlyAboveFive := false)

  /** The class-based second version. */
  const Edf30 := Config(
    unknownStage := false, architectureRatios := true, splitApneaTypes := false,
    ahiSeverity := true, separateLimbTypes := true, maskClampToLast := true,
    minConsecutiveEvents := 10, penaltyCountsBradycardia := false,
    fallbackBandMax := 30.0, trimOnlyAboveFive := false)

  /** The batch-processing third version. */
  const PsgEdf := Config(
    unknownStage := true, architectureRatios := false, splitApneaTypes := true,
    ahiSeverity := false, separateLimbTypes := true, maskClampToLast := false,
    minConsecutiveEvents := 1, penaltyCountsBradycardia := true,
    fallbackBandMax := 40.0, trimOnlyAboveFive := true)

  /** Physiological limits shared by all versions. */
  const TachycardiaThreshold: real := 100.0
  const BradycardiaThreshold: real := 50.0
  const RrMin: real := 0.3
  const RrMax: real := 2.0
  const HrMin: real := 40.0
  const HrMax: real := 150.0
  const RespMinRate: real := 8.0
  const RespMaxRate: real := 25.0
  const RespFallbackMin: real := 6.0
  const Spo2MinValid: real := 75.0
  const Spo2MaxValid: real := 100.0
  const Spo2Threshold90: real := 90.0
  const Spo2Threshold85: real := 85.0
}
