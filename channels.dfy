/** The two channel-name classifiers: the channel type of the header reader and
    the human-readable display name of the report. Both are `if`/`elif` chains
    of substring tests where the first test that passes decides; each chain is
    written here as an ordered table of rules. */
module ChannelNames {
  import opened Base

  /** One branch of a chain: passes when any keyword occurs in the name as given
      (`original`) or in its upper-cased form. */
  datatype Rule = Rule(keywords: seq<string>, outcome: string, original: bool)

  predicate AnyContained(keywords: seq<string>, text: string) {
    exists k :: 0 <= k < |keywords| && Contains(text, keywords[k])
  }

  predicate Passes(r: Rule, name: string) {
    AnyContained(r.keywords, if r.original then name else Upper(name))
  }

  /** The label of the first rule that passes, or `fallback` when none does. */
  function FirstMatch(rules: seq<Rule>, name: string, fallback: string): (outcome: string) {
    if rules == [] then fallback
    else if Passes(rules[0], name) then rules[0].outcome
    else FirstMatch(rules[1..], name, fallback)
  }

  /** When no rule passes the fallback is returned. */
  lemma {:induction false} NoRulePasses(rules: seq<Rule>, name: string, fallback: string)
    requires forall k :: 0 <= k < |rules| ==> !Passes(rules[k], name)
    ensures FirstMatch(rules, name, fallback) == fallback
  {
    if rules != [] {
      assert forall k :: 0 <= k < |rules[1..]| ==> rules[1..][k] == rules[k + 1];
      NoRulePasses(rules[1..], name, fallback);
    }
  }

  /** The first passing rule decides: its label is returned. */
  lemma {:induction false} FirstPassingRuleDecides(rules: seq<Rule>, name: string, fallback: string, k: nat)
    requires k < |rules| && Passes(rules[k], name)
    requires forall j :: 0 <= j < k ==> !Passes(rules[j], name)
    ensures FirstMatch(rules, name, fallback) == rules[k].outcome
  {
    if k > 0 {
      assert forall j :: 0 <= j < k - 1 ==> rules[1..][j] == rules[j + 1];
      FirstPassingRuleDecides(rules[1..], name, fallback, k - 1);
    }
  }

  /** Rule `k` passes and no earlier rule does. */
  predicate IsFirstPassing(rules: seq<Rule>, name: string, k: int) {
    0 <= k < |rules| && Passes(rules[k], name) && forall j :: 0 <= j < k ==> !Passes(rules[j], name)
  }

  /** Both facts about a chain at once: no passing rule gives the fallback, and the
      first passing rule gives its label. */
  lemma FirstMatchDecides(rules: seq<Rule>, name: string, fallback: string)
    ensures (forall k :: 0 <= k < |rules| ==> !Passes(rules[k], name)) ==> FirstMatch(rules, name, fallback) == fallback
    ensures forall k :: 0 <= k < |rules| && IsFirstPassing(rules, name, k) ==>
      FirstMatch(rules, name, fallback) == rules[k].outcome
  {
    if forall k :: 0 <= k < |rules| ==> !Passes(rules[k], name) {
      NoRulePasses(rules, name, fallback);
    }
    forall k | 0 <= k < |rules| && IsFirstPassing(rules, name, k)
      ensures FirstMatch(rules, name, fallback) == rules[k].outcome
    {
      FirstPassingRuleDecides(rules, name, fallback, k);
    }
  }

  // ------------------------------------------------------- channel types

  /** `get_channel_type`, in its order; every test is on the upper-cased name. */
  function TypeRules(): seq<Rule> {[
    Rule(["EEG"], "EEG", false),
    Rule(["EOG"], "EOG", false),
    Rule(["EMG"], "EMG", false),
    Rule(["ECG"], "ECG", false),
    Rule(["RESP"], "RESP", false),
    Rule(["SPO2", "SAO2"], "SpO2", false),
    Rule(["SOUND"], "Sound", false),
    Rule(["POSITION"], "Position", false),
    Rule(["PPG"], "PPG", false),
    Rule(["ANNOTATION"], "Annotations", false),
    Rule(["PULSA", "CHASTOTA"], "Pulse", false)
  ]}

  /** `get_channel_type`: "Other" exactly when no keyword occurs in the upper-cased
      name, and otherwise the label of the first rule whose keyword does. */
  function ChannelType(name: string): (kind: string)
    ensures kind == "Other" <==> forall k :: 0 <= k < |TypeRules()| ==> !Passes(TypeRules()[k], name)
    ensures forall k :: 0 <= k < |TypeRules()| && IsFirstPassing(TypeRules(), name, k) ==>
      kind == TypeRules()[k].outcome
  {
    FirstMatchDecides(TypeRules(), name, "Other");
    FirstMatchLabel(TypeRules(), name, "Other");
    TypeLabelsAreNotOther();
    FirstMatch(TypeRules(), name, "Other")
  }

  /** The type is one of the twelve labels; it is "Other" exactly when no keyword
      occurs in the upper-cased name. */
  lemma ChannelTypeLabels(name: string)
    ensures ChannelType(name) == "Other" || exists k :: 0 <= k < |TypeRules()| && ChannelType(name) == TypeRules()[k].outcome
    ensures (forall k :: 0 <= k < |TypeRules()| ==> !Passes(TypeRules()[k], name)) ==> ChannelType(name) == "Other"
    ensures (exists k :: 0 <= k < |TypeRules()| && Passes(TypeRules()[k], name)) ==> ChannelType(name) != "Other"
  {
    if forall k :: 0 <= k < |TypeRules()| ==> !Passes(TypeRules()[k], name) {
      NoRulePasses(TypeRules(), name, "Other");
    }
    FirstMatchLabel(TypeRules(), name, "Other");
    TypeLabelsAreNotOther();
  }

  lemma TypeLabelsAreNotOther()
    ensures forall k :: 0 <= k < |TypeRules()| ==> TypeRules()[k].outcome != "Other"
  {
    var rules := TypeRules();
    forall k | 0 <= k < |rules|
      ensures rules[k].outcome != "Other"
    {
      assert |rules[k].outcome| != 5 || rules[k].outcome[0] != 'O';
    }
  }

  /** The result is the fallback only when no rule passes (given no rule carries the
      fallback as its label), and otherwise some rule's label. */
  lemma {:induction false} FirstMatchLabel(rules: seq<Rule>, name: string, fallback: string)
    ensures FirstMatch(rules, name, fallback) == fallback
      || exists k :: 0 <= k < |rules| && FirstMatch(rules, name, fallback) == rules[k].outcome
    ensures ((forall k :: 0 <= k < |rules| ==> rules[k].outcome != fallback)
             && (exists k :: 0 <= k < |rules| && Passes(rules[k], name)))
      ==> FirstMatch(rules, name, fallback) != fallback
  {
    if rules != [] {
      FirstMatchLabel(rules[1..], name, fallback);
      assert forall k :: 1 <= k < |rules| ==> rules[k] == rules[1..][k - 1];
    }
  }

  // ------------------------------------------------------- display names

  /** `get_channel_display_name`, in its order, as written: the EEG montages are
      tested case-sensitively on the name itself, everything after on the
      upper-cased name, including the lower-case leg codes. */
  const DisplayRules: seq<Rule> := [
    Rule(["EEG F3-A2"], "EEG Лобный левый", true),
    Rule(["EEG C3-A2"], "EEG Центральный левый", true),
    Rule(["EEG O1-A2"], "EEG Затылочный левый", true),
    Rule(["EEG F4-A2"], "EEG Лобный правый", true),
    Rule(["EEG C4-A2"], "EEG Центральный правый", true),
    Rule(["EEG O2-A2"], "EEG Затылочный правый", true),
    Rule(["EMG F7-F8"], "EMG Подбородочные мышцы", false),
    Rule(["EOGL", "FP1-A2"], "EOG Левый глаз", false),
    Rule(["EOGR", "FP2-A2"], "EOG Правый глаз", false),
    Rule(["LMl", "T3-T5"], "EMG Левая нога", false),
    Rule(["LMr", "T4-T6"], "EMG Правая нога", false),
    Rule(["SOUND"], "Микрофон (храп)", false),
    Rule(["ECG"], "ЭКГ", false),
    Rule(["CHASTOTA", "PULSA"], "Пульс", false),
    Rule(["CHEST"], "Дыхание грудное", false),
    Rule(["ABDOMEN"], "Дыхание брюшное", false),
    Rule(["POSITION"], "Положение тела", false),
    Rule(["BREATH"], "Дыхательный поток", false),
    Rule(["SAO2", "SPO2"], "Кислород крови", false),
    Rule(["PPG"], "Пульсовая волна", false)
  ]

  /** A name no rule recognises is returned unchanged. */
  function DisplayName(name: string): (shown: string)
    ensures (forall k :: 0 <= k < |DisplayRules| ==> !Passes(DisplayRules[k], name)) ==> shown == name
    ensures forall k :: 0 <= k < |DisplayRules| && IsFirstPassing(DisplayRules, name, k) ==>
      shown == DisplayRules[k].outcome
  {
    FirstMatchDecides(DisplayRules, name, name);
    FirstMatch(DisplayRules, name, name)
  }

  /** The same chain with the leg codes upper-cased, as the tests on the
      upper-cased name evidently intend. */
  function CorrectedDisplayRules(): (rules: seq<Rule>)
    ensures |rules| == |DisplayRules|
  {
    DisplayRules[9 := Rule(["LML", "T3-T5"], "EMG Левая нога", false)]
                [10 := Rule(["LMR", "T4-T6"], "EMG Правая нога", false)]
  }

  function CorrectedDisplayName(name: string): (shown: string) {
    FirstMatch(CorrectedDisplayRules(), name, name)
  }

  /** An upper-cased name never holds a lower-case letter, so it never contains
      'LMl' or 'LMr'. */
  lemma {:induction false} NoLowerCaseInUpper(name: string, code: string)
    requires |code| == 3 && (code[2] == 'l' || code[2] == 'r')
    ensures !Contains(Upper(name), code)
  {
  }

  /** As written, the leg labels come only from the T3-T5 and T4-T6 montages. */
  lemma LegLabelsOnlyFromMontages(name: string)
    ensures Passes(DisplayRules[9], name) <==> Contains(Upper(name), "T3-T5")
    ensures Passes(DisplayRules[10], name) <==> Contains(Upper(name), "T4-T6")
  {
    NoLowerCaseInUpper(name, "LMl");
    NoLowerCaseInUpper(name, "LMr");
    var u := Upper(name);
    var r9 := DisplayRules[9];
    assert !r9.original && r9.keywords == ["LMl", "T3-T5"];
    assert AnyContained(r9.keywords, u) <==> Contains(u, "LMl") || Contains(u, "T3-T5") by {
      if Contains(u, "T3-T5") { assert Contains(u, r9.keywords[1]); }
    }
    var r10 := DisplayRules[10];
    assert !r10.original && r10.keywords == ["LMr", "T4-T6"];
    assert AnyContained(r10.keywords, u) <==> Contains(u, "LMr") || Contains(u, "T4-T6") by {
      if Contains(u, "T4-T6") { assert Contains(u, r10.keywords[1]); }
    }
  }

  /** The corrected chain recognises a leg channel by its code whatever its case,
      when no earlier rule claims the name. */
  lemma CorrectedLegCodes(name: string)
    requires Contains(Upper(name), "LML")
    requires forall j :: 0 <= j < 9 ==> !Passes(DisplayRules[j], name)
    ensures CorrectedDisplayName(name) == "EMG Левая нога"
  {
    var rules := CorrectedDisplayRules();
    assert rules[9].keywords[0] == "LML";
    assert Passes(rules[9], name);
    assert forall j :: 0 <= j < 9 ==> rules[j] == DisplayRules[j];
    FirstPassingRuleDecides(rules, name, name, 9);
  }
}
