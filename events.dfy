/** Event tallies (respiratory events, arousals, limb movements) and the
    per-hour indices derived from them and the total sleep time. */
module Events {
  import opened Base
  import opened Annotations
  import opened Staging

  // ------------------------------------------------------ respiratory events

  /** The keys of the respiratory-event dictionary. */
  datatype EventKind =
    | Apneas | ObstructiveApneas | CentralApneas | MixedApneas
    | Hypopneas | ObstructiveHypopneas | CentralHypopneas | MixedHypopneas
    | Desaturations | Snoring | CheyneStokes

  /** The keys a configuration's dictionary starts with: all eleven with the
      split, the four combined ones without. */
  predicate IsEventKey(k: EventKind, split: bool) {
    split || k.Apneas? || k.Hypopneas? || k.Desaturations? || k.Snoring?
  }

  /** The label-to-key mapping of the counting loop.  Without the split only the
      obstructive labels are mapped, onto the combined keys. */
  function EventMapping(text: string, split: bool): (r: Option<EventKind>)
    ensures r.Some? ==> IsEventKey(r.value, split)
    ensures split ==> r != Some(Apneas) && r != Some(Hypopneas)
  {
    if text == LabelObstructiveApnea then Some(if split then ObstructiveApneas else Apneas)
    else if text == LabelObstructiveHypopnea then Some(if split then ObstructiveHypopneas else Hypopneas)
    else if text == LabelDesaturation then Some(Desaturations)
    else if text == LabelSnore then Some(Snoring)
    else if !split then None
    else if text == LabelCentralApnea then Some(CentralApneas)
    else if text == LabelMixedApnea then Some(MixedApneas)
    else if text == LabelCentralHypopnea then Some(CentralHypopneas)
    else if text == LabelMixedHypopnea then Some(MixedHypopneas)
    else if text == LabelCheyneStokes then Some(CheyneStokes)
    else None
  }

  /** Number of annotations the mapping sends to key `k`. */
  function EventCount(anns: seq<Annotation>, k: EventKind, split: bool): (n: nat)
    ensures n <= |anns|
  {
    if anns == [] then 0
    else EventCount(anns[..|anns| - 1], k, split)
         + (if EventMapping(anns[|anns| - 1].description, split) == Some(k) then 1 else 0)
  }

  /** The dictionary the counting loop leaves: one entry per key, each key counted
      from the labels mapped to it; with the split, the two combined keys are then
      overwritten by the sums of their three types. */
  predicate IsEventTally(events: map<EventKind, nat>, anns: seq<Annotation>, split: bool) {
    (forall k :: k in events <==> IsEventKey(k, split))
    && (forall k {:trigger EventCount(anns, k, split)} :: k in events && !(split && (k == Apneas || k == Hypopneas)) ==>
          events[k] == EventCount(anns, k, split))
    && (split ==>
          events[Apneas] == events[ObstructiveApneas] + events[CentralApneas] + events[MixedApneas]
          && events[Hypopneas] == events[ObstructiveHypopneas] + events[CentralHypopneas] + events[MixedHypopneas])
  }

  method CalculateRespiratoryEvents(anns: seq<Annotation>, split: bool) returns (events: map<EventKind, nat>)
    ensures IsEventTally(events, anns, split)
  {
    events := CountEvents(anns, split);
    if split {
      events := events[Apneas := events[ObstructiveApneas] + events[CentralApneas] + events[MixedApneas]];
      events := events[Hypopneas := events[ObstructiveHypopneas] + events[CentralHypopneas] + events[MixedHypopneas]];
    }
  }

  /** The counting loop: one increment per mapped label. */
  method CountEvents(anns: seq<Annotation>, split: bool) returns (events: map<EventKind, nat>)
    ensures forall k :: k in events <==> IsEventKey(k, split)
    ensures forall k :: k in events ==> events[k] == EventCount(anns, k, split)
  {
    events := map k | IsEventKey(k, split) :: 0;
    for i := 0 to |anns|
      invariant forall k :: k in events <==> IsEventKey(k, split)
      invariant forall k :: k in events ==> events[k] == EventCount(anns[..i], k, split)
    {
      events := CountEvent(events, anns, i, split);
    }
    assert anns[..|anns|] == anns;
  }

  /** One annotation of the counting loop: a mapped label adds one to its key. */
  method CountEvent(events: map<EventKind, nat>, anns: seq<Annotation>, i: nat, split: bool)
    returns (events': map<EventKind, nat>)
    requires i < |anns|
    requires forall k :: k in events <==> IsEventKey(k, split)
    requires forall k :: k in events ==> events[k] == EventCount(anns[..i], k, split)
    ensures forall k :: k in events' <==> IsEventKey(k, split)
    ensures forall k :: k in events' ==> events'[k] == EventCount(anns[..i + 1], k, split)
  {
    EventCountStep(anns, i, split);
    events' := events;
    var key := EventMapping(anns[i].description, split);
    if key.Some? {
      events' := events[key.value := events[key.value] + 1];
    }
  }

  lemma EventCountStep(anns: seq<Annotation>, i: nat, split: bool)
    requires i < |anns|
    ensures forall k :: (EventCount(anns[..i + 1], k, split)
      == EventCount(anns[..i], k, split) + (if EventMapping(anns[i].description, split) == Some(k) then 1 else 0))
  {
    assert anns[..i + 1][..i] == anns[..i];
  }

  /** The label a directly counted key stands for. */
  function KeyLabel(k: EventKind, split: bool): Option<string> {
    match k
    case Apneas => if split then None else Some(LabelObstructiveApnea)
    case Hypopneas => if split then None else Some(LabelObstructiveHypopnea)
    case ObstructiveApneas => if split then Some(LabelObstructiveApnea) else None
    case ObstructiveHypopneas => if split then Some(LabelObstructiveHypopnea) else None
    case Desaturations => Some(LabelDesaturation)
    case Snoring => Some(LabelSnore)
    case CentralApneas => if split then Some(LabelCentralApnea) else None
    case MixedApneas => if split then Some(LabelMixedApnea) else None
    case CentralHypopneas => if split then Some(LabelCentralHypopnea) else None
    case MixedHypopneas => if split then Some(LabelMixedHypopnea) else None
    case CheyneStokes => if split then Some(LabelCheyneStokes) else None
  }

  /** The mapping counts, for each key, exactly the annotations carrying its label;
      keys without a label of their own count nothing. */
  lemma {:induction false} EventCountIsLabelCount(anns: seq<Annotation>, k: EventKind, split: bool)
    ensures EventCount(anns, k, split) == if KeyLabel(k, split).Some? then CountLabel(anns, KeyLabel(k, split).value) else 0
  {
    if anns != [] {
      EventCountIsLabelCount(anns[..|anns| - 1], k, split);
      MappingIsKeyLabel(anns[|anns| - 1].description, k, split);
    }
  }

  /** The mapping sends a label to key `k` exactly when it is `k`'s own label. */
  lemma MappingIsKeyLabel(text: string, k: EventKind, split: bool)
    ensures EventMapping(text, split) == Some(k) <==> KeyLabel(k, split) == Some(text)
  {
  }

  /** Without the split the combined keys count only the obstructive labels. */
  lemma CombinedTallyByLabel(events: map<EventKind, nat>, anns: seq<Annotation>)
    requires IsEventTally(events, anns, false)
    ensures events[Apneas] == CountLabel(anns, LabelObstructiveApnea)
    ensures events[Hypopneas] == CountLabel(anns, LabelObstructiveHypopnea)
    ensures events[Desaturations] == CountLabel(anns, LabelDesaturation)
    ensures events[Snoring] == CountLabel(anns, LabelSnore)
  {
    EventCountIsLabelCount(anns, Apneas, false);
    EventCountIsLabelCount(anns, Hypopneas, false);
    EventCountIsLabelCount(anns, Desaturations, false);
    EventCountIsLabelCount(anns, Snoring, false);
  }

  /** With the split the combined keys count all three types of their labels. */
  lemma SplitTallyByLabel(events: map<EventKind, nat>, anns: seq<Annotation>)
    requires IsEventTally(events, anns, true)
    ensures events[Apneas] == CountLabel(anns, LabelObstructiveApnea)
        + CountLabel(anns, LabelCentralApnea) + CountLabel(anns, LabelMixedApnea)
    ensures events[Hypopneas] == CountLabel(anns, LabelObstructiveHypopnea)
        + CountLabel(anns, LabelCentralHypopnea) + CountLabel(anns, LabelMixedHypopnea)
  {
    EventCountIsLabelCount(anns, ObstructiveApneas, true);
    EventCountIsLabelCount(anns, CentralApneas, true);
    EventCountIsLabelCount(anns, MixedApneas, true);
    EventCountIsLabelCount(anns, ObstructiveHypopneas, true);
    EventCountIsLabelCount(anns, CentralHypopneas, true);
    EventCountIsLabelCount(anns, MixedHypopneas, true);
  }

  /** An annotation whose label the mapping does not know leaves every count as it was. */
  lemma UnmappedLabelChangesNothing(anns: seq<Annotation>, a: Annotation, split: bool)
    requires EventMapping(a.description, split).None?
    ensures forall k :: EventCount(anns + [a], k, split) == EventCount(anns, k, split)
  {
    assert (anns + [a])[..|anns|] == anns;
  }

  // ---------------------------------------------------------- fragmentation

  /** Events per hour of sleep, 0 with no sleep. */
  function PerHour(n: nat, sleepMinutes: real): (r: real)
    ensures sleepMinutes <= 0.0 ==> r == 0.0
    ensures sleepMinutes > 0.0 ==> r * (sleepMinutes / 60.0) == n as real && r >= 0.0
  {
    if sleepMinutes > 0.0 then n as real / (sleepMinutes / 60.0) else 0.0
  }

  datatype Fragmentation = Fragmentation(
    fragmentationIndex: real,
    activations: nat,
    limbMovements: nat,
    periodicLimbMovements: Option<nat>,   // reported only when limb types are separated
    bruxismEvents: Option<nat>,
    totalLimbMovements: Option<nat>,
    arousalIndex: real)

  /** Arousals and limb movements per hour of sleep.  Without separation the limb
      count lumps both limb labels together. */
  function CalculateFragmentation(anns: seq<Annotation>, t: StageTable, separate: bool): (r: Fragmentation)
    requires WellFormed(t)
    ensures r.activations == CountLabel(anns, LabelActivation)
    ensures r.arousalIndex == PerHour(r.activations, SleepMinutes(t))
    ensures var movements := CountLabel(anns, LabelLegMovement) + CountLabel(anns, LabelPeriodicLegMovement);
      r.fragmentationIndex == r.arousalIndex + PerHour(movements, SleepMinutes(t))
      && r.arousalIndex <= r.fragmentationIndex
      && (separate <==> r.totalLimbMovements.Some?)
      && (separate ==> r.totalLimbMovements == Some(movements)
                       && r.limbMovements == CountLabel(anns, LabelLegMovement)
                       && r.periodicLimbMovements == Some(CountLabel(anns, LabelPeriodicLegMovement))
                       && r.bruxismEvents == Some(CountLabel(anns, LabelBruxism)))
      && (!separate ==> r.limbMovements == movements
                        && r.periodicLimbMovements.None? && r.bruxismEvents.None?)
  {
    var activations := CountLabel(anns, LabelActivation);
    var limb := CountLabel(anns, LabelLegMovement);
    var periodic := CountLabel(anns, LabelPeriodicLegMovement);
    var sleep := SleepMinutes(t);
    PerHourSum(activations, limb + periodic, sleep);
    if separate then
      Fragmentation(PerHour(activations + (limb + periodic), sleep), activations, limb, Some(periodic),
                    Some(CountLabel(anns, LabelBruxism)), Some(limb + periodic), PerHour(activations, sleep))
    else
      Fragmentation(PerHour(activations + (limb + periodic), sleep), activations, limb + periodic,
                    None, None, None, PerHour(activations, sleep))
  }

  /** Both layouts give the same indices, the lumped limb count is the separated
      total, and the fragmentation index splits into the arousal index plus the
      limb movements per hour, so it is never below the arousal index. */
  lemma FragmentationLayouts(anns: seq<Annotation>, t: StageTable)
    requires WellFormed(t)
    ensures var a := CalculateFragmentation(anns, t, false);
      var b := CalculateFragmentation(anns, t, true);
      a.fragmentationIndex == b.fragmentationIndex && a.arousalIndex == b.arousalIndex
      && b.totalLimbMovements == Some(a.limbMovements)
      && b.limbMovements + b.periodicLimbMovements.value == a.limbMovements
    ensures var a := CalculateFragmentation(anns, t, false);
      a.fragmentationIndex == a.arousalIndex + PerHour(a.limbMovements, SleepMinutes(t))
      && a.arousalIndex <= a.fragmentationIndex
  {
    var sleep := SleepMinutes(t);
    var a := CalculateFragmentation(anns, t, false);
    if sleep > 0.0 {
      var h := sleep / 60.0;
      DivSum(a.activations as real, a.limbMovements as real, h);
    }
  }

  /** The hourly rate of two counts together is the sum of their rates. */
  lemma PerHourSum(m: nat, n: nat, sleepMinutes: real)
    ensures PerHour(m + n, sleepMinutes) == PerHour(m, sleepMinutes) + PerHour(n, sleepMinutes)
  {
    if sleepMinutes > 0.0 {
      DivSum(m as real, n as real, sleepMinutes / 60.0);
    }
  }

  lemma DivInverse(x: real, h: real)
    requires h > 0.0 && x >= 0.0
    ensures (x / h) * h == x && x / h >= 0.0
  {
  }

  lemma DivSum(x: real, y: real, h: real)
    requires h > 0.0
    ensures (x + y) / h == x / h + y / h
  {
  }

  // ---------------------------------------------------------------- indices

  function Get(events: map<EventKind, nat>, k: EventKind): nat {
    if k in events then events[k] else 0
  }

  datatype AhiByType = AhiByType(obstructive: real, central: real, mixed: real)

  /** The per-type event totals reported when apnea types are split. */
  datatype TypeTotals = TypeTotals(
    obstructiveApneas: nat, centralApneas: nat, mixedApneas: nat,
    obstructiveHypopneas: nat, centralHypopneas: nat, mixedHypopneas: nat)

  datatype SleepIndices = SleepIndices(
    ahi: real,
    ahiSeverity: Option<string>,   // present in the first two versions
    ahiByType: Option<AhiByType>,  // present when apnea types are split
    odi: real,
    snoringIndex: real,
    totalApneas: nat, totalHypopneas: nat, totalDesaturations: nat, totalSnores: nat,
    typeTotals: Option<TypeTotals>,     // present when apnea types are split
    cheyneStokesEpisodes: Option<nat>)  // present when apnea types are split

  /** The severity word for an apnea-hypopnea index. */
  function AhiSeverity(ahi: real): string {
    if ahi < 5.0 then "норма" else if ahi < 15.0 then "легкая" else if ahi < 30.0 then "средняя" else "тяжелая"
  }

  /** Events per hour of sleep; `None` stands for the empty dictionary returned
      when there is no sleep. */
  function CalculateIndices(events: map<EventKind, nat>, t: StageTable, split: bool, severity: bool)
    : (r: Option<SleepIndices>)
    requires WellFormed(t)
    ensures r.None? <==> SleepMinutes(t) == 0.0
    ensures r.Some? ==> r.value == IndicesPerHour(events, SleepMinutes(t) / 60.0, split, severity)
  {
    var sleep := SleepMinutes(t);
    if sleep == 0.0 then None else Some(IndicesPerHour(events, sleep / 60.0, split, severity))
  }

  /** The indices and totals over `hours` hours of sleep. */
  function IndicesPerHour(events: map<EventKind, nat>, hours: real, split: bool, severity: bool): SleepIndices
    requires hours != 0.0
  {
    var ahi := (Get(events, Apneas) + Get(events, Hypopneas)) as real / hours;
    SleepIndices(
      ahi,
      if severity then Some(AhiSeverity(ahi)) else None,
      if split then
        Some(AhiByType((Get(events, ObstructiveApneas) + Get(events, ObstructiveHypopneas)) as real / hours,
                       (Get(events, CentralApneas) + Get(events, CentralHypopneas)) as real / hours,
                       (Get(events, MixedApneas) + Get(events, MixedHypopneas)) as real / hours))
      else None,
      Get(events, Desaturations) as real / hours,
      Get(events, Snoring) as real / hours,
      Get(events, Apneas), Get(events, Hypopneas), Get(events, Desaturations), Get(events, Snoring),
      if split then
        Some(TypeTotals(Get(events, ObstructiveApneas), Get(events, CentralApneas), Get(events, MixedApneas),
                        Get(events, ObstructiveHypopneas), Get(events, CentralHypopneas),
                        Get(events, MixedHypopneas)))
      else None,
      if split then Some(Get(events, CheyneStokes)) else None)
  }

  /** Minutes in the stage table are never negative. */
  lemma SleepMinutesNonNegative(t: StageTable)
    requires WellFormed(t)
    ensures SleepMinutes(t) >= 0.0
  {
  }

  /** With sleep, the AHI times the hours slept gives back the apneas plus the
      hypopneas, every index is non-negative, and the severity word is present
      exactly in the configurations that report it. */
  lemma IndicesInvert(events: map<EventKind, nat>, t: StageTable, split: bool, severity: bool)
    requires WellFormed(t)
    requires SleepMinutes(t) != 0.0
    ensures var r := CalculateIndices(events, t, split, severity).value;
      r.ahi * (SleepMinutes(t) / 60.0) == (Get(events, Apneas) + Get(events, Hypopneas)) as real
      && r.ahi >= 0.0 && r.odi >= 0.0 && r.snoringIndex >= 0.0
      && (r.ahiSeverity.Some? <==> severity)
  {
    var hours := SleepMinutes(t) / 60.0;
    assert hours > 0.0 by { SleepMinutesNonNegative(t); }
    var r := CalculateIndices(events, t, split, severity).value;
    var ah := (Get(events, Apneas) + Get(events, Hypopneas)) as real;
    var d, n := Get(events, Desaturations) as real, Get(events, Snoring) as real;
    assert r.ahi == ah / hours && r.odi == d / hours && r.snoringIndex == n / hours;
    assert r.ahi * hours == ah && r.ahi >= 0.0 by { DivInverse(ah, hours); }
    assert r.odi >= 0.0 by { DivInverse(d, hours); }
    assert r.snoringIndex >= 0.0 by { DivInverse(n, hours); }
  }

  /** With the split, the AHI is the sum of the obstructive, central and mixed indices. */
  lemma AhiIsSumOfTypes(events: map<EventKind, nat>, anns: seq<Annotation>, t: StageTable, severity: bool)
    requires WellFormed(t)
    requires IsEventTally(events, anns, true)
    requires SleepMinutes(t) != 0.0
    ensures var r := CalculateIndices(events, t, true, severity).value;
      r.ahiByType.Some?
      && r.ahi == r.ahiByType.value.obstructive + r.ahiByType.value.central + r.ahiByType.value.mixed
  {
    SplitSums(events, anns);
    AhiRegroups(events, t, severity);
  }

  /** The AHI regrouped by type, once the combined keys are known to be the sums. */
  lemma AhiRegroups(events: map<EventKind, nat>, t: StageTable, severity: bool)
    requires WellFormed(t) && SleepMinutes(t) != 0.0
    requires Get(events, Apneas) == Get(events, ObstructiveApneas) + Get(events, CentralApneas) + Get(events, MixedApneas)
    requires Get(events, Hypopneas)
      == Get(events, ObstructiveHypopneas) + Get(events, CentralHypopneas) + Get(events, MixedHypopneas)
    ensures var r := CalculateIndices(events, t, true, severity).value;
      r.ahiByType.Some?
      && r.ahi == r.ahiByType.value.obstructive + r.ahiByType.value.central + r.ahiByType.value.mixed
  {
    var hours := SleepMinutes(t) / 60.0;
    var oa, ca, ma := Get(events, ObstructiveApneas), Get(events, CentralApneas), Get(events, MixedApneas);
    var oh, ch, mh := Get(events, ObstructiveHypopneas), Get(events, CentralHypopneas), Get(events, MixedHypopneas);
    RegroupedRate(oa, ca, ma, oh, ch, mh, hours);
  }

  /** Over any positive number of hours of sleep, each index is the number of
      annotations carrying its labels per hour: desaturations and snores in every
      layout, the obstructive labels alone without the split, and each type's
      apnea and hypopnea labels with it. */
  lemma RatesByLabel(events: map<EventKind, nat>, anns: seq<Annotation>, hours: real, split: bool, severity: bool)
    requires hours > 0.0
    requires IsEventTally(events, anns, split)
    ensures var r := IndicesPerHour(events, hours, split, severity);
      r.odi == CountLabel(anns, LabelDesaturation) as real / hours
      && r.snoringIndex == CountLabel(anns, LabelSnore) as real / hours
    ensures var r := IndicesPerHour(events, hours, split, severity);
      !split ==> (r.ahiByType.None?
        && r.ahi == (CountLabel(anns, LabelObstructiveApnea) + CountLabel(anns, LabelObstructiveHypopnea)) as real / hours)
    ensures var r := IndicesPerHour(events, hours, split, severity);
      split ==> (r.ahiByType.Some?
        && r.ahiByType.value.obstructive
           == (CountLabel(anns, LabelObstructiveApnea) + CountLabel(anns, LabelObstructiveHypopnea)) as real / hours
        && r.ahiByType.value.central
           == (CountLabel(anns, LabelCentralApnea) + CountLabel(anns, LabelCentralHypopnea)) as real / hours
        && r.ahiByType.value.mixed
           == (CountLabel(anns, LabelMixedApnea) + CountLabel(anns, LabelMixedHypopnea)) as real / hours
        && r.ahi == (CountLabel(anns, LabelObstructiveApnea) + CountLabel(anns, LabelCentralApnea)
                     + CountLabel(anns, LabelMixedApnea) + CountLabel(anns, LabelObstructiveHypopnea)
                     + CountLabel(anns, LabelCentralHypopnea) + CountLabel(anns, LabelMixedHypopnea)) as real / hours)
  {
    TallyCounts(events, anns, split);
    RatesOfCounts(events, hours, split, severity,
      CountLabel(anns, LabelDesaturation), CountLabel(anns, LabelSnore),
      CountLabel(anns, LabelObstructiveApnea), CountLabel(anns, LabelObstructiveHypopnea),
      CountLabel(anns, LabelCentralApnea), CountLabel(anns, LabelCentralHypopnea),
      CountLabel(anns, LabelMixedApnea), CountLabel(anns, LabelMixedHypopnea));
  }

  /** The dictionary entries the indices read hold the given counts: desaturations
      `d`, snores `s`, and apneas and hypopneas of each type; without the split
      only the obstructive ones, held by the combined keys. */
  predicate CountsAre(events: map<EventKind, nat>, split: bool, d: nat, s: nat,
                      oa: nat, oh: nat, ca: nat, ch: nat, ma: nat, mh: nat) {
    Get(events, Desaturations) == d && Get(events, Snoring) == s
    && if split then
         Get(events, ObstructiveApneas) == oa && Get(events, ObstructiveHypopneas) == oh
         && Get(events, CentralApneas) == ca && Get(events, CentralHypopneas) == ch
         && Get(events, MixedApneas) == ma && Get(events, MixedHypopneas) == mh
         && Get(events, Apneas) == oa + ca + ma && Get(events, Hypopneas) == oh + ch + mh
       else
         Get(events, Apneas) == oa && Get(events, Hypopneas) == oh
  }

  /** The counting loop's dictionary holds the label counts the indices read. */
  lemma TallyCounts(events: map<EventKind, nat>, anns: seq<Annotation>, split: bool)
    requires IsEventTally(events, anns, split)
    ensures CountsAre(events, split, CountLabel(anns, LabelDesaturation), CountLabel(anns, LabelSnore), CountLabel(anns, LabelObstructiveApnea), CountLabel(anns, LabelObstructiveHypopnea), CountLabel(anns, LabelCentralApnea), CountLabel(anns, LabelCentralHypopnea), CountLabel(anns, LabelMixedApnea), CountLabel(anns, LabelMixedHypopnea))
  {
    KeyHoldsItsLabel(events, anns, Desaturations, split);
    KeyHoldsItsLabel(events, anns, Snoring, split);
    if split {
      TypeCountsByLabel(events, anns);
      SplitSums(events, anns);
    } else {
      KeyHoldsItsLabel(events, anns, Apneas, false);
      KeyHoldsItsLabel(events, anns, Hypopneas, false);
    }
  }

  /** The indices over dictionary entries holding known counts. */
  lemma RatesOfCounts(events: map<EventKind, nat>, hours: real, split: bool, severity: bool,
                      d: nat, s: nat, oa: nat, oh: nat, ca: nat, ch: nat, ma: nat, mh: nat)
    requires hours > 0.0
    requires CountsAre(events, split, d, s, oa, oh, ca, ch, ma, mh)
    ensures var r := IndicesPerHour(events, hours, split, severity);
      r.odi == d as real / hours && r.snoringIndex == s as real / hours
    ensures var r := IndicesPerHour(events, hours, split, severity);
      !split ==> (r.ahiByType.None? && r.ahi == (oa + oh) as real / hours)
    ensures var r := IndicesPerHour(events, hours, split, severity);
      split ==> (r.ahiByType.Some?
        && r.ahiByType.value.obstructive == (oa + oh) as real / hours
        && r.ahiByType.value.central == (ca + ch) as real / hours
        && r.ahiByType.value.mixed == (ma + mh) as real / hours
        && r.ahi == (oa + ca + ma + oh + ch + mh) as real / hours)
  {
  }

  /** Without the split, the reported totals are the counts of the obstructive,
      desaturation and snore labels, and neither the per-type totals nor the
      Cheyne-Stokes episodes are reported. */
  lemma CombinedTotalsByLabel(events: map<EventKind, nat>, anns: seq<Annotation>, t: StageTable, severity: bool)
    requires WellFormed(t) && SleepMinutes(t) != 0.0
    requires IsEventTally(events, anns, false)
    ensures var r := CalculateIndices(events, t, false, severity).value;
      r.totalApneas == CountLabel(anns, LabelObstructiveApnea)
      && r.totalHypopneas == CountLabel(anns, LabelObstructiveHypopnea)
      && r.totalDesaturations == CountLabel(anns, LabelDesaturation)
      && r.totalSnores == CountLabel(anns, LabelSnore)
      && r.typeTotals.None? && r.cheyneStokesEpisodes.None?
  {
    CombinedTallyByLabel(events, anns);
    assert IsEventKey(Apneas, false) && IsEventKey(Hypopneas, false);
    assert IsEventKey(Desaturations, false) && IsEventKey(Snoring, false);
  }

  /** With the split, the reported totals are the label counts of the recording:
      each type total counts its own label, the combined totals their three types,
      and the Cheyne-Stokes episodes their own label. */
  lemma ReportedTotalsByLabel(events: map<EventKind, nat>, anns: seq<Annotation>, t: StageTable, severity: bool)
    requires WellFormed(t) && SleepMinutes(t) != 0.0
    requires IsEventTally(events, anns, true)
    ensures var r := CalculateIndices(events, t, true, severity).value;
      r.typeTotals == Some(TypeTotals(
        CountLabel(anns, LabelObstructiveApnea), CountLabel(anns, LabelCentralApnea),
        CountLabel(anns, LabelMixedApnea), CountLabel(anns, LabelObstructiveHypopnea),
        CountLabel(anns, LabelCentralHypopnea), CountLabel(anns, LabelMixedHypopnea)))
      && r.cheyneStokesEpisodes == Some(CountLabel(anns, LabelCheyneStokes))
      && r.totalDesaturations == CountLabel(anns, LabelDesaturation)
      && r.totalSnores == CountLabel(anns, LabelSnore)
      && r.totalApneas == r.typeTotals.value.obstructiveApneas + r.typeTotals.value.centralApneas
                          + r.typeTotals.value.mixedApneas
      && r.totalHypopneas == r.typeTotals.value.obstructiveHypopneas + r.typeTotals.value.centralHypopneas
                             + r.typeTotals.value.mixedHypopneas
  {
    SplitSums(events, anns);
    TypeCountsByLabel(events, anns);
    KeyHoldsItsLabel(events, anns, Desaturations, true);
    KeyHoldsItsLabel(events, anns, Snoring, true);
  }

  /** With the split, each type key and the Cheyne-Stokes key hold their label counts. */
  lemma TypeCountsByLabel(events: map<EventKind, nat>, anns: seq<Annotation>)
    requires IsEventTally(events, anns, true)
    ensures TypeTotals(Get(events, ObstructiveApneas), Get(events, CentralApneas), Get(events, MixedApneas),
                       Get(events, ObstructiveHypopneas), Get(events, CentralHypopneas), Get(events, MixedHypopneas))
         == TypeTotals(CountLabel(anns, LabelObstructiveApnea), CountLabel(anns, LabelCentralApnea),
                       CountLabel(anns, LabelMixedApnea), CountLabel(anns, LabelObstructiveHypopnea),
                       CountLabel(anns, LabelCentralHypopnea), CountLabel(anns, LabelMixedHypopnea))
    ensures Get(events, CheyneStokes) == CountLabel(anns, LabelCheyneStokes)
  {
    KeyHoldsItsLabel(events, anns, ObstructiveApneas, true);
    KeyHoldsItsLabel(events, anns, CentralApneas, true);
    KeyHoldsItsLabel(events, anns, MixedApneas, true);
    KeyHoldsItsLabel(events, anns, ObstructiveHypopneas, true);
    KeyHoldsItsLabel(events, anns, CentralHypopneas, true);
    KeyHoldsItsLabel(events, anns, MixedHypopneas, true);
    KeyHoldsItsLabel(events, anns, CheyneStokes, true);
  }

  /** Every key the counting loop counts directly holds its label count: all
      four keys without the split, every key but the two combined ones with it. */
  lemma KeyHoldsItsLabel(events: map<EventKind, nat>, anns: seq<Annotation>, k: EventKind, split: bool)
    requires IsEventTally(events, anns, split) && IsEventKey(k, split)
    requires !(split && (k == Apneas || k == Hypopneas))
    ensures KeyLabel(k, split).Some? && Get(events, k) == CountLabel(anns, KeyLabel(k, split).value)
  {
    EventCountIsLabelCount(anns, k, split);
  }

  /** With the split, each combined key holds the sum of its three types. */
  lemma SplitSums(events: map<EventKind, nat>, anns: seq<Annotation>)
    requires IsEventTally(events, anns, true)
    ensures Get(events, Apneas) == Get(events, ObstructiveApneas) + Get(events, CentralApneas) + Get(events, MixedApneas)
    ensures Get(events, Hypopneas)
      == Get(events, ObstructiveHypopneas) + Get(events, CentralHypopneas) + Get(events, MixedHypopneas)
  {
    assert IsEventKey(Apneas, true) && IsEventKey(ObstructiveApneas, true);
  }

  /** Apneas and hypopneas regrouped by type, per hour. */
  lemma RegroupedRate(oa: nat, ca: nat, ma: nat, oh: nat, ch: nat, mh: nat, hours: real)
    requires hours > 0.0
    ensures (oa + ca + ma + (oh + ch + mh)) as real / hours
      == (oa + oh) as real / hours + (ca + ch) as real / hours + (ma + mh) as real / hours
  {
    assert (oa + ca + ma + (oh + ch + mh)) as real == (oa + oh) as real + (ca + ch) as real + (ma + mh) as real;
    DivSum((oa + oh) as real + (ca + ch) as real, (ma + mh) as real, hours);
    DivSum((oa + oh) as real, (ca + ch) as real, hours);
  }

  /** The severity word follows the tiers 5, 15 and 30 events per hour. */
  lemma SeverityTiers(ahi: real)
    ensures AhiSeverity(ahi) == "норма" <==> ahi < 5.0
    ensures AhiSeverity(ahi) == "легкая" <==> 5.0 <= ahi < 15.0
    ensures AhiSeverity(ahi) == "средняя" <==> 15.0 <= ahi < 30.0
    ensures AhiSeverity(ahi) == "тяжелая" <==> 30.0 <= ahi
  {
  }
}
