/** The sequence of scored epochs and what is read off it: the compact
    hypnogram export, the REM-cycle count and the stage-transition matrix. */
module StageSequence {
  import opened Base
  import opened Annotations

  /** The five-stage epochs of a recording, in order. */
  function EpochSequence(anns: seq<Annotation>): (s: seq<Stage>)
    ensures |s| == EpochTotal(anns, false)
  {
    if anns == [] then []
    else
      var e := EpochStage(anns[|anns| - 1], false);
      EpochSequence(anns[..|anns| - 1]) + (if e.Some? then [e.value] else [])
  }

  predicate ScoredOnly(s: seq<Stage>) {
    forall k :: 0 <= k < |s| ==> s[k] != Unknown
  }

  /** No epoch of the sequence is Unknown. */
  lemma {:induction false} EpochSequenceScored(anns: seq<Annotation>)
    ensures ScoredOnly(EpochSequence(anns))
  {
    if anns != [] {
      EpochSequenceScored(anns[..|anns| - 1]);
    }
  }

  /** Each stage occurs in the epoch sequence as often as the stage table counts it. */
  lemma {:induction false} EpochSequenceCounts(anns: seq<Annotation>, st: Stage)
    ensures Occurrences(EpochSequence(anns), st) == EpochCount(anns, st, false)
  {
    if anns != [] {
      var p := anns[..|anns| - 1];
      EpochSequenceCounts(p, st);
      var e := EpochStage(anns[|anns| - 1], false);
      var q := EpochSequence(p);
      assert EpochCount(anns, st, false) == EpochCount(p, st, false) + (if e == Some(st) then 1 else 0);
      if e.Some? {
        assert EpochSequence(anns) == q + [e.value];
        OccurrencesAppend(q, e.value, st);
      } else {
        assert EpochSequence(anns) == q;
      }
    }
  }

  lemma OccurrencesAppend<T>(q: seq<T>, v: T, x: T)
    ensures Occurrences(q + [v], x) == Occurrences(q, x) + (if v == x then 1 else 0)
  {
    assert (q + [v])[..|q|] == q;
  }

  // ------------------------------------------------------- compact hypnogram

  /** One-character stage codes of the compact export. */
  function StageCode(s: Stage): char {
    match s
    case Wake => 'W'
    case N1 => '1'
    case N2 => '2'
    case N3 => '3'
    case REM => 'R'
    case Unknown => '?'
  }

  function StageOfCode(c: char): Option<Stage> {
    if c == 'W' then Some(Wake) else if c == '1' then Some(N1) else if c == '2' then Some(N2)
    else if c == '3' then Some(N3) else if c == 'R' then Some(REM) else None
  }

  /** The compact hypnogram: number of epochs, epoch length, stage codes. */
  datatype MinimalHypnogram = MinimalHypnogram(e: nat, d: nat, s: seq<char>)

  function Codes(stages: seq<Stage>): (cs: seq<char>)
    ensures |cs| == |stages|
    ensures forall k :: 0 <= k < |stages| ==> cs[k] == StageCode(stages[k])
  {
    if stages == [] then [] else Codes(stages[..|stages| - 1]) + [StageCode(stages[|stages| - 1])]
  }

  function ExportHypnogram(anns: seq<Annotation>): (h: MinimalHypnogram)
    ensures h.e == |h.s| == EpochTotal(anns, false)
    ensures h.d == 30
  {
    var stages := EpochSequence(anns);
    MinimalHypnogram(|stages|, 30, Codes(stages))
  }

  /** The codes decode back to the epoch sequence, so the export loses no stage. */
  lemma ExportDecodes(anns: seq<Annotation>)
    ensures var h := ExportHypnogram(anns);
      forall k :: 0 <= k < |h.s| ==> StageOfCode(h.s[k]) == Some(EpochSequence(anns)[k])
  {
    EpochSequenceScored(anns);
  }

  /** The epoch count of the export is the sum of the five stage counts. */
  lemma ExportCountsAllStages(anns: seq<Annotation>)
    ensures ExportHypnogram(anns).e == EpochCount(anns, Wake, false) + EpochCount(anns, N1, false)
      + EpochCount(anns, N2, false) + EpochCount(anns, N3, false) + EpochCount(anns, REM, false)
  {
    EpochCountsPartition(anns, false);
    NoUnknownEpochs(anns);
  }

  // -------------------------------------------------------------- REM cycles

  /** The flags of the REM-cycle scan and the cycles counted so far. */
  datatype CycleState = CycleState(cycles: nat, inRemCycle: bool, remCycleStarted: bool)

  /** One step of the scan at an epoch with its neighbours.  The opening test
      comes first, so an epoch that both follows and precedes NREM only opens. */
  function CycleStep(st: CycleState, prev: Stage, cur: Stage, next: Stage): CycleState {
    if cur == REM && IsNrem(prev) && !st.remCycleStarted then CycleState(st.cycles, true, true)
    else if cur == REM && IsNrem(next) && st.inRemCycle then CycleState(st.cycles + 1, false, false)
    else if cur == Wake && st.inRemCycle then CycleState(st.cycles, false, false)
    else st
  }

  /** State after examining positions 1 .. i-1. */
  function ScanCycles(s: seq<Stage>, i: nat): CycleState
    requires 1 <= i && (i <= |s| - 1 || i == 1)
  {
    if i == 1 then CycleState(0, false, false)
    else CycleStep(ScanCycles(s, i - 1), s[i - 2], s[i - 1], s[i])
  }

  /** REM cycles of an epoch sequence: positions 1 .. n-2 are examined. */
  function RemCycles(s: seq<Stage>): nat {
    if |s| < 3 then 0 else ScanCycles(s, |s| - 1).cycles
  }

  /** Builds the epoch sequence, then runs the two-flag scan over its inner positions. */
  method CalculateRemCycles(anns: seq<Annotation>) returns (cycles: nat)
    ensures cycles == RemCycles(EpochSequence(anns))
  {
    var sequence: seq<Stage> := [];
    for i := 0 to |anns|
      invariant sequence == EpochSequence(anns[..i])
    {
      assert anns[..i + 1][..i] == anns[..i];
      var st := EpochStage(anns[i], false);
      if st.Some? {
        sequence := sequence + [st.value];
      }
    }
    assert anns[..|anns|] == anns;
    if |sequence| == 0 {
      return 0;
    }
    cycles := 0;
    var inRem := false;
    var started := false;
    var i := 1;
    while i < |sequence| - 1
      invariant 1 <= i && (i <= |sequence| - 1 || i == 1)
      invariant CycleState(cycles, inRem, started) == ScanCycles(sequence, i)
    {
      var current, prev, next := sequence[i], sequence[i - 1], sequence[i + 1];
      if current == REM && IsNrem(prev) && !started {
        started := true;
        inRem := true;
      } else if current == REM && IsNrem(next) && inRem {
        cycles := cycles + 1;
        inRem := false;
        started := false;
      } else if current == Wake && inRem {
        inRem := false;
        started := false;
      }
      i := i + 1;
    }
  }

  /** The two flags always agree, and each counted cycle used two distinct REM
      epochs (one that opened it and a later one that closed it), an open cycle one more. */
  lemma {:induction false} CyclesUseTwoRemEpochs(s: seq<Stage>, i: nat)
    requires 1 <= i < |s|
    ensures ScanCycles(s, i).inRemCycle == ScanCycles(s, i).remCycleStarted
    ensures 2 * ScanCycles(s, i).cycles + (if ScanCycles(s, i).inRemCycle then 1 else 0)
      <= Occurrences(s[1..i], REM)
  {
    if i > 1 {
      CyclesUseTwoRemEpochs(s, i - 1);
      assert s[1..i][..i - 2] == s[1..i - 1];
    }
  }

  /** Fewer than three epochs never make a cycle, and there are at most half as
      many cycles as REM epochs. */
  lemma RemCyclesBound(s: seq<Stage>)
    ensures |s| < 3 ==> RemCycles(s) == 0
    ensures 2 * RemCycles(s) <= Occurrences(s, REM)
  {
    if |s| >= 3 {
      CyclesUseTwoRemEpochs(s, |s| - 1);
      OccurrencesOfSlice(s, 1, |s| - 1, REM);
    }
  }

  lemma {:induction false} OccurrencesOfSlice<T>(s: seq<T>, i: nat, j: nat, x: T)
    requires i <= j <= |s|
    ensures Occurrences(s[i..j], x) <= Occurrences(s, x)
    decreases |s|
  {
    if j < |s| {
      assert s[..|s| - 1][i..j] == s[i..j];
      OccurrencesOfSlice(s[..|s| - 1], i, j, x);
    } else if i < j {
      assert s[i..j][..j - i - 1] == s[i..j - 1];
      assert s[..|s| - 1][i..j - 1] == s[i..j - 1];
      OccurrencesOfSlice(s[..|s| - 1], i, j - 1, x);
    }
  }

  /** A REM run of two or more epochs between NREM epochs is one cycle. */
  lemma TwoRemEpochsMakeACycle()
    ensures RemCycles([N2, REM, REM, N2]) == 1
  {
    var s := [N2, REM, REM, N2];
    assert ScanCycles(s, 2) == CycleState(0, true, true);
    assert ScanCycles(s, 3) == CycleState(1, false, false);
  }

  /** A single REM epoch between NREM epochs opens a cycle that never closes:
      the closing test sits behind the opening test of the same epoch. */
  lemma SingleRemEpochIsNoCycle()
    ensures RemCycles([N2, REM, N2]) == 0
    ensures ScanCycles([N2, REM, N2], 2).inRemCycle
  {
    assert ScanCycles([N2, REM, N2], 2) == CycleState(0, true, true);
  }

  /** Once a cycle has opened, a later REM epoch that follows NREM cannot reopen
      it, and waking aborts it without counting. */
  lemma WakeAbortsOpenCycle()
    ensures RemCycles([N2, REM, N2, REM, Wake, REM, N2]) == 0
  {
    var s := [N2, REM, N2, REM, Wake, REM, N2];
    assert ScanCycles(s, 2) == CycleState(0, true, true);
    assert ScanCycles(s, 3) == CycleState(0, true, true);
    assert ScanCycles(s, 4) == CycleState(0, true, true);
    assert ScanCycles(s, 5) == CycleState(0, false, false);
    assert ScanCycles(s, 6) == CycleState(0, false, false);
  }

  // --------------------------------------------------------- transitions

  /** Number of positions k >= 1 with s[k-1] == a and s[k] == b. */
  function Adjacent(s: seq<Stage>, a: Stage, b: Stage): nat {
    if |s| < 2 then 0
    else Adjacent(s[..|s| - 1], a, b) + (if s[|s| - 2] == a && s[|s| - 1] == b then 1 else 0)
  }

  /** Number of positions where the stage changes. */
  function Changes(s: seq<Stage>): nat {
    if |s| < 2 then 0
    else Changes(s[..|s| - 1]) + (if s[|s| - 2] != s[|s| - 1] then 1 else 0)
  }

  const ScoredStages: set<Stage> := {Wake, N1, N2, N3, REM}
  const ScoredPairs: set<(Stage, Stage)> := set a, b | a in ScoredStages && b in ScoredStages :: (a, b)

  datatype Transitions = Transitions(totalTransitions: nat, matrix: map<(Stage, Stage), nat>)

  function Cell(m: map<(Stage, Stage), nat>, a: Stage, b: Stage): nat {
    if (a, b) in m then m[(a, b)] else 0
  }

  /** All 25 cells of the matrix added up. */
  function MatrixSum(m: map<(Stage, Stage), nat>): nat {
    RowSum(m, Wake) + RowSum(m, N1) + RowSum(m, N2) + RowSum(m, N3) + RowSum(m, REM)
  }

  function RowSum(m: map<(Stage, Stage), nat>, a: Stage): nat {
    Cell(m, a, Wake) + Cell(m, a, N1) + Cell(m, a, N2) + Cell(m, a, N3) + Cell(m, a, REM)
  }

  /** The matrix the loop keeps: a zero diagonal and, off it, the adjacent pairs. */
  predicate IsTransitionMatrix(m: map<(Stage, Stage), nat>, s: seq<Stage>) {
    (forall a, b :: (a, b) in m <==> a in ScoredStages && b in ScoredStages)
    && forall a, b :: (a, b) in m ==> m[(a, b)] == if a == b then 0 else Adjacent(s, a, b)
  }

  /** Counts stage changes between consecutive epochs into a 5 x 5 matrix;
      `None` stands for the empty result of an empty sequence. */
  method CalculateStageTransitions(s: seq<Stage>) returns (r: Option<Transitions>)
    requires ScoredOnly(s)
    ensures r.None? <==> s == []
    ensures r.Some? ==> r.value.totalTransitions == Changes(s) && IsTransitionMatrix(r.value.matrix, s)
  {
    if s == [] {
      return None;
    }
    var total := 0;
    var matrix: map<(Stage, Stage), nat> :=
      map p | p in ScoredPairs :: 0;
    var previous: Option<Stage> := None;
    for i := 0 to |s|
      invariant previous == if i == 0 then None else Some(s[i - 1])
      invariant total == Changes(s[..i])
      invariant IsTransitionMatrix(matrix, s[..i])
    {
      total, matrix := CountTransition(s, i, previous, total, matrix);
      previous := Some(s[i]);
    }
    assert s[..|s|] == s;
    r := Some(Transitions(total, matrix));
  }

  /** One epoch of the loop: a change from the previous epoch is counted, in the
      total and in its cell. */
  method CountTransition(s: seq<Stage>, i: nat, previous: Option<Stage>, total: nat,
                         matrix: map<(Stage, Stage), nat>)
    returns (total': nat, matrix': map<(Stage, Stage), nat>)
    requires i < |s| && ScoredOnly(s)
    requires previous == if i == 0 then None else Some(s[i - 1])
    requires total == Changes(s[..i]) && IsTransitionMatrix(matrix, s[..i])
    ensures total' == Changes(s[..i + 1]) && IsTransitionMatrix(matrix', s[..i + 1])
  {
    var current := s[i];
    total', matrix' := total, matrix;
    if i > 0 {
      AdjacentStep(s[..i + 1]);
      assert s[..i + 1][..i] == s[..i];
    }
    if previous.Some? && previous.value != current {
      total' := total + 1;
      matrix' := matrix[(previous.value, current) := matrix[(previous.value, current)] + 1];
    }
  }

  lemma AdjacentStep(s: seq<Stage>)
    requires |s| >= 2
    ensures forall a, b :: (Adjacent(s, a, b) ==
      Adjacent(s[..|s| - 1], a, b) + (if s[|s| - 2] == a && s[|s| - 1] == b then 1 else 0))
  {
  }

  /** The off-diagonal adjacency counts of a scored sequence add up to its changes. */
  lemma {:induction false} OffDiagonalSum(s: seq<Stage>)
    requires ScoredOnly(s)
    ensures OffDiagonal(s, Wake) + OffDiagonal(s, N1) + OffDiagonal(s, N2) + OffDiagonal(s, N3)
      + OffDiagonal(s, REM) == Changes(s)
  {
    if |s| >= 2 {
      OffDiagonalSum(s[..|s| - 1]);
      AdjacentStep(s);
    }
  }

  function OffDiagonal(s: seq<Stage>, a: Stage): nat {
    (if a == Wake then 0 else Adjacent(s, a, Wake)) + (if a == N1 then 0 else Adjacent(s, a, N1))
    + (if a == N2 then 0 else Adjacent(s, a, N2)) + (if a == N3 then 0 else Adjacent(s, a, N3))
    + (if a == REM then 0 else Adjacent(s, a, REM))
  }

  /** The matrix cells add up to the number of transitions, and the diagonal stays 0. */
  lemma TransitionsSum(s: seq<Stage>, t: Transitions)
    requires ScoredOnly(s)
    requires t.totalTransitions == Changes(s) && IsTransitionMatrix(t.matrix, s)
    ensures MatrixSum(t.matrix) == t.totalTransitions
    ensures forall a :: a in ScoredStages ==> Cell(t.matrix, a, a) == 0
  {
    OffDiagonalSum(s);
    forall a | a in ScoredStages
      ensures RowSum(t.matrix, a) == OffDiagonal(s, a)
    {
      assert (a, Wake) in t.matrix && (a, N1) in t.matrix && (a, N2) in t.matrix;
      assert (a, N3) in t.matrix && (a, REM) in t.matrix;
    }
  }
}
