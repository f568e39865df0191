/** Maximal runs of `true` in a boolean mask: the valid stretches of a
    recording once artifacts have been masked out. */
module Segments {

  /** Every sample in [s, e) is set. */
  predicate AllTrue(mask: seq<bool>, s: int, e: int) {
    0 <= s <= e <= |mask| && forall k :: s <= k < e ==> mask[k]
  }

  /** [s, e) is a non-empty run of set samples that cannot be extended on either side. */
  predicate MaximalRun(mask: seq<bool>, s: int, e: int) {
    s < e && AllTrue(mask, s, e) && (s == 0 || !mask[s - 1]) && (e == |mask| || !mask[e])
  }

  /** Segments are non-empty, in increasing order, and separated by at least one unset sample. */
  predicate Ascending(segs: seq<(int, int)>) {
    (forall k :: 0 <= k < |segs| ==> segs[k].0 < segs[k].1)
    && forall k :: 0 <= k < |segs| - 1 ==> segs[k].1 < segs[k + 1].0
  }

  /** A qualifying segment: maximal, and at least `minLength` long. */
  predicate Qualifies(mask: seq<bool>, minLength: int, s: int, e: int) {
    MaximalRun(mask, s, e) && e - s >= minLength
  }

  /** Two maximal runs ending at the same place are the same run. */
  lemma MaximalRunUnique(mask: seq<bool>, s1: int, s2: int, e: int)
    requires MaximalRun(mask, s1, e) && MaximalRun(mask, s2, e)
    ensures s1 == s2
  {
  }

  /** Everything in `segs` qualifies, in order, and ends before `bound`. */
  predicate SoundUpTo(mask: seq<bool>, minLength: int, segs: seq<(int, int)>, bound: int) {
    Ascending(segs)
    && (|segs| > 0 ==> segs[|segs| - 1].1 < bound)
    && forall k :: 0 <= k < |segs| ==> Qualifies(mask, minLength, segs[k].0, segs[k].1)
  }

  /** Every qualifying segment that ends before `bound` is in `segs`. */
  ghost predicate CompleteUpTo(mask: seq<bool>, minLength: int, segs: seq<(int, int)>, bound: int) {
    forall s, e :: Qualifies(mask, minLength, s, e) && e < bound ==> (s, e) in segs
  }

  /** `segs` is the segmentation of `mask`: exactly its qualifying segments, in order. */
  ghost predicate IsSegmentation(mask: seq<bool>, minLength: int, segs: seq<(int, int)>) {
    Ascending(segs)
    && (forall k :: 0 <= k < |segs| ==> Qualifies(mask, minLength, segs[k].0, segs[k].1))
    && forall s, e :: Qualifies(mask, minLength, s, e) ==> (s, e) in segs
  }

  /** A mask has one segmentation only. */
  lemma SegmentationUnique(mask: seq<bool>, minLength: int, a: seq<(int, int)>, b: seq<(int, int)>)
    requires IsSegmentation(mask, minLength, a) && IsSegmentation(mask, minLength, b)
    ensures a == b
  {
    forall x | x in a ensures x in b {
      var k :| 0 <= k < |a| && a[k] == x;
    }
    forall x | x in b ensures x in a {
      var k :| 0 <= k < |b| && b[k] == x;
    }
    AscendingSameMembers(a, b);
  }

  /** In an ascending list every earlier segment starts before every later one. */
  lemma {:induction false} AscendingOrdered(segs: seq<(int, int)>, i: int, j: int)
    requires Ascending(segs) && 0 <= i < j < |segs|
    ensures segs[i].0 < segs[j].0
    decreases j - i
  {
    if i + 1 < j {
      AscendingOrdered(segs, i + 1, j);
    }
  }

  /** A later member of one list is a later member of an ascending list with the
      same head that holds it. */
  lemma TailMember(a: seq<(int, int)>, b: seq<(int, int)>, x: (int, int))
    requires Ascending(a) && Ascending(b) && a != [] && b != [] && a[0] == b[0]
    requires x in a[1..] && x in b
    ensures x in b[1..]
  {
    var k :| 0 <= k < |a[1..]| && a[1..][k] == x;
    AscendingOrdered(a, 0, k + 1);
    var m :| 0 <= m < |b| && b[m] == x;
    assert m != 0;
    assert b[1..][m - 1] == x;
  }

  /** Two ascending lists with the same members are the same list. */
  lemma {:induction false} AscendingSameMembers(a: seq<(int, int)>, b: seq<(int, int)>)
    requires Ascending(a) && Ascending(b)
    requires forall x :: x in a <==> x in b
    ensures a == b
    decreases |a|
  {
    assert b != [] ==> b[0] in a;
    if a != [] {
      SameHead(a, b);
      forall x | x in a[1..] ensures x in b[1..] {
        TailMember(a, b, x);
      }
      forall x | x in b[1..] ensures x in a[1..] {
        TailMember(b, a, x);
      }
      AscendingTail(a);
      AscendingTail(b);
      AscendingSameMembers(a[1..], b[1..]);
      assert a == [a[0]] + a[1..];
      assert b == [b[0]] + b[1..];
    }
  }

  /** Ascending lists with the same members start with the same segment. */
  lemma SameHead(a: seq<(int, int)>, b: seq<(int, int)>)
    requires Ascending(a) && Ascending(b) && a != []
    requires forall x :: x in a <==> x in b
    ensures b != [] && a[0] == b[0]
  {
    assert a[0] in b;
    var j :| 0 <= j < |b| && b[j] == a[0];
    assert b[0] in a;
    var i :| 0 <= i < |a| && a[i] == b[0];
    if i > 0 {
      AscendingOrdered(a, 0, i);
    }
    if j > 0 {
      AscendingOrdered(b, 0, j);
    }
  }

  lemma AscendingTail(a: seq<(int, int)>)
    requires Ascending(a) && a != []
    ensures Ascending(a[1..])
  {
    assert forall k :: 0 <= k < |a| - 1 ==> a[1..][k] == a[k + 1];
  }

  /** Scans the mask once, opening a segment at the first set sample after an
      unset one and closing it at the next unset sample or the end; segments
      shorter than `minLength` are dropped. */
  method FindContinuousSegments(mask: seq<bool>, minLength: int) returns (segs: seq<(int, int)>)
    ensures Ascending(segs)
    ensures forall k :: 0 <= k < |segs| ==> Qualifies(mask, minLength, segs[k].0, segs[k].1)
    ensures forall s, e :: Qualifies(mask, minLength, s, e) ==> (s, e) in segs
    ensures IsSegmentation(mask, minLength, segs)
  {
    segs := [];
    var start: int := -1;  // -1 stands for Python's None
    for i := 0 to |mask|
      invariant ScanState(mask, minLength, segs, start, i)
    {
      segs, start := ScanSample(mask, minLength, segs, start, i);
    }
    if start != -1 {
      segs := CloseRun(mask, minLength, segs, start, |mask|);
    } else if |mask| > 0 {
      NoRunEndsHere(mask, minLength, |mask|);
    }
  }

  /** The scan after `i` samples: `start` is the open segment's first sample, or -1
      when none is open; `segs` holds exactly the qualifying segments closed so far. */
  ghost predicate ScanState(mask: seq<bool>, minLength: int, segs: seq<(int, int)>, start: int, i: int) {
    0 <= i <= |mask|
    && (start == -1 || 0 <= start < i)
    && (start >= 0 ==> AllTrue(mask, start, i) && (start == 0 || !mask[start - 1]))
    && (start == -1 ==> i == 0 || !mask[i - 1])
    && SoundUpTo(mask, minLength, segs, if start >= 0 then start else i)
    && CompleteUpTo(mask, minLength, segs, i)
  }

  /** One sample of the scan: a set sample opens a segment when none is open, an
      unset one closes the open segment. */
  method ScanSample(mask: seq<bool>, minLength: int, segs: seq<(int, int)>, start: int, i: int)
    returns (segs': seq<(int, int)>, start': int)
    requires i < |mask| && ScanState(mask, minLength, segs, start, i)
    ensures ScanState(mask, minLength, segs', start', i + 1)
    ensures start' == (if mask[i] then (if start == -1 then i else start) else -1)
    ensures segs' == if !mask[i] && start != -1 && i - start >= minLength then segs + [(start, i)] else segs
  {
    segs', start' := segs, start;
    if !mask[i] && start != -1 {
      segs' := CloseRun(mask, minLength, segs, start, i);
      start' := -1;
    } else {
      NothingCloses(mask, minLength, segs, i);
      if mask[i] && start == -1 {
        start' := i;
      }
    }
  }

  /** After an unset sample with no open segment, no maximal run ends there. */
  lemma NoRunEndsHere(mask: seq<bool>, minLength: int, i: int)
    requires 0 < i <= |mask| && !mask[i - 1]
    ensures forall s :: !Qualifies(mask, minLength, s, i)
  {
  }

  /** A sample that closes no run: set, or unset after an unset one or at the start. */
  lemma NothingCloses(mask: seq<bool>, minLength: int, segs: seq<(int, int)>, i: int)
    requires 0 <= i < |mask| && (mask[i] || i == 0 || !mask[i - 1])
    requires CompleteUpTo(mask, minLength, segs, i)
    ensures CompleteUpTo(mask, minLength, segs, i + 1)
  {
    if !mask[i] && i > 0 {
      NoRunEndsHere(mask, minLength, i);
    }
  }

  /** Closes the open segment [start, i), keeping it when it is long enough. */
  method CloseRun(mask: seq<bool>, minLength: int, before: seq<(int, int)>, start: int, i: int)
    returns (after: seq<(int, int)>)
    requires 0 <= start < i <= |mask| && AllTrue(mask, start, i) && (start == 0 || !mask[start - 1])
    requires i == |mask| || !mask[i]
    requires SoundUpTo(mask, minLength, before, start)
    requires CompleteUpTo(mask, minLength, before, i)
    ensures after == if i - start >= minLength then before + [(start, i)] else before
    ensures SoundUpTo(mask, minLength, after, i + 1)
    ensures CompleteUpTo(mask, minLength, after, i + 1)
  {
    after := if i - start >= minLength then before + [(start, i)] else before;
    if i - start >= minLength {
      AppendKeepsSound(mask, minLength, before, start, i);
    }
    AppendKeepsComplete(mask, minLength, before, after, start, i);
  }

  lemma AppendKeepsSound(mask: seq<bool>, minLength: int, before: seq<(int, int)>, start: int, i: int)
    requires 0 <= start < i <= |mask| && AllTrue(mask, start, i) && (start == 0 || !mask[start - 1])
    requires i == |mask| || !mask[i]
    requires i - start >= minLength
    requires SoundUpTo(mask, minLength, before, start)
    ensures SoundUpTo(mask, minLength, before + [(start, i)], i + 1)
  {
    var after := before + [(start, i)];
    assert Qualifies(mask, minLength, start, i);
    assert forall k :: 0 <= k < |before| ==> after[k] == before[k];
  }

  lemma AppendKeepsComplete(mask: seq<bool>, minLength: int, before: seq<(int, int)>, after: seq<(int, int)>,
                            start: int, i: int)
    requires 0 <= start < i <= |mask| && AllTrue(mask, start, i) && (start == 0 || !mask[start - 1])
    requires i == |mask| || !mask[i]
    requires after == if i - start >= minLength then before + [(start, i)] else before
    requires CompleteUpTo(mask, minLength, before, i)
    ensures CompleteUpTo(mask, minLength, after, i + 1)
  {
    forall s, e | Qualifies(mask, minLength, s, e) && e < i + 1
      ensures (s, e) in after
    {
      if e == i {
        MaximalRunUnique(mask, s, start, i);
        assert after[|after| - 1] == (s, e);
      } else {
        assert (s, e) in before;
      }
    }
  }

  /** Index of the first longest segment, as Python's `max(..., key=len)` picks it. */
  function FirstLongest(segs: seq<(int, int)>): (k: nat)
    requires |segs| > 0
    ensures k < |segs|
    ensures forall j :: 0 <= j < |segs| ==> segs[j].1 - segs[j].0 <= segs[k].1 - segs[k].0
    ensures forall j :: 0 <= j < k ==> segs[j].1 - segs[j].0 < segs[k].1 - segs[k].0
  {
    if |segs| == 1 then 0
    else
      var k := FirstLongest(segs[..|segs| - 1]);
      if segs[|segs| - 1].1 - segs[|segs| - 1].0 > segs[k].1 - segs[k].0 then |segs| - 1 else k
  }
}
