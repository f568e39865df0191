/** Clock strings: the `MM:SS` times of the hypnogram and the `HH:MM:SS`
    durations of the reports, built from Python's floor division and modulo
    on floats and the `:02d` integer format. */
module Clock {
  import opened Base

  /** Python's `x // m` on floats with a positive divisor. */
  function FloorDiv(x: real, m: real): (q: int)
    requires m > 0.0
    ensures q as real * m <= x < (q + 1) as real * m
  {
    var y := x / m;
    assert x == y * m;
    MulMonotone(y.Floor as real, y, m);
    MulStrict(y, (y.Floor + 1) as real, m);
    assert x < (y.Floor + 1) as real * m;
    y.Floor
  }

  lemma MulStrict(a: real, b: real, m: real)
    requires a < b && m > 0.0
    ensures a * m < b * m
  {
  }

  /** Python's `x % m` on floats with a positive divisor: never negative. */
  function FloorMod(x: real, m: real): (r: real)
    requires m > 0.0
    ensures 0.0 <= r < m
    ensures x == FloorDiv(x, m) as real * m + r
  {
    x - FloorDiv(x, m) as real * m
  }

  function DigitChar(d: nat): (c: char)
    requires d < 10
    ensures '0' <= c <= '9'
  {
    ('0' as int + d) as char
  }

  predicate IsDigitString(s: string) {
    forall k :: 0 <= k < |s| ==> '0' <= s[k] <= '9'
  }

  /** Decimal digits of a natural number, without leading zeros. */
  function Digits(n: nat): (s: string)
    ensures |s| >= 1 && IsDigitString(s)
    ensures n >= 10 ==> s[0] != '0'
  {
    if n < 10 then [DigitChar(n)] else Digits(n / 10) + [DigitChar(n % 10)]
  }

  /** The value of a string of decimal digits. */
  function ParseDigits(s: string): (n: nat)
    requires IsDigitString(s)
  {
    if s == [] then 0 else 10 * ParseDigits(s[..|s| - 1]) + (s[|s| - 1] as int - '0' as int)
  }

  /** Python's `f"{n:02d}"`: at least two characters, zero-padded, the sign counting
      toward the width. */
  function Pad2(n: int): (s: string)
    ensures n >= 0 ==> |s| >= 2 && IsDigitString(s)
  {
    if 0 <= n < 10 then ['0'] + Digits(n)
    else if n >= 10 then Digits(n)
    else ['-'] + Digits(-n)
  }

  lemma {:induction false} DigitsRoundTrip(n: nat)
    ensures ParseDigits(Digits(n)) == n
  {
    if n >= 10 {
      DigitsRoundTrip(n / 10);
      var s := Digits(n);
      assert s[..|s| - 1] == Digits(n / 10);
    }
  }

  lemma {:induction false} LeadingZero(s: string)
    requires IsDigitString(s)
    ensures ParseDigits(['0'] + s) == ParseDigits(s)
  {
    if s != [] {
      assert (['0'] + s)[..|s|] == ['0'] + s[..|s| - 1];
      LeadingZero(s[..|s| - 1]);
    }
  }

  /** A zero-padded field reads back as the number it shows. */
  lemma Pad2RoundTrip(n: nat)
    ensures ParseDigits(Pad2(n)) == n
  {
    DigitsRoundTrip(n);
    if n < 10 {
      LeadingZero(Digits(n));
    }
  }

  /** The hypnogram clock `MM:SS` of a time in seconds.  For a non-negative time
      it reads back as whole minutes and the whole seconds within the minute. */
  function FormatClock(t: real): (s: string)
    ensures t >= 0.0 ==> var parts := SplitColon(s);
      |parts| == 2 && IsDigitString(parts[0]) && IsDigitString(parts[1])
      && 60 * ParseDigits(parts[0]) + ParseDigits(parts[1]) == t.Floor
      && ParseDigits(parts[1]) < 60
  {
    var mins := FloorDiv(t, 60.0);
    var r := FloorMod(t, 60.0);
    FloorOfShift(60 * mins, r);
    PaddedPairRoundTrip(mins, r.Floor);
    Pad2(mins) + ":" + Pad2(r.Floor)
  }

  /** `format_time`: `HH:MM:SS` of a duration in seconds.  For a non-negative
      duration it reads back as its three fields, the hours non-negative. */
  function FormatTime(seconds: real): (s: string)
    ensures seconds >= 0.0 ==> TimeFields(seconds).0 >= 0 && ParseTime(s) == Some(TimeFields(seconds))
  {
    var (h, m, sec) := TimeFields(seconds);
    TimeFieldsDecompose(seconds);
    PaddedFieldsRoundTrip(h, m, sec);
    Pad2(h) + ":" + Pad2(m) + ":" + Pad2(sec)
  }

  /** Two non-negative fields, zero-padded and joined by a colon, split back into
      their digit strings and read back as themselves. */
  lemma PaddedPairRoundTrip(a: int, b: int)
    ensures a >= 0 && b >= 0 ==>
      SplitColon(Pad2(a) + ":" + Pad2(b)) == [Pad2(a), Pad2(b)]
      && ParseDigits(Pad2(a)) == a && ParseDigits(Pad2(b)) == b
  {
    if a >= 0 && b >= 0 {
      SplitTwo(Pad2(a), Pad2(b));
      Pad2RoundTrip(a);
      Pad2RoundTrip(b);
    }
  }

  /** Three non-negative fields, zero-padded and joined by colons, read back as
      themselves. */
  lemma PaddedFieldsRoundTrip(h: int, m: int, sec: int)
    ensures h >= 0 && m >= 0 && sec >= 0 ==>
      ParseTime(Pad2(h) + ":" + Pad2(m) + ":" + Pad2(sec)) == Some((h, m, sec))
  {
    if h >= 0 && m >= 0 && sec >= 0 {
      ParseTimeOfFields(Pad2(h), Pad2(m), Pad2(sec));
      Pad2RoundTrip(h);
      Pad2RoundTrip(m);
      Pad2RoundTrip(sec);
    }
  }

  /** The three fields `format_time` shows, as numbers. */
  function TimeFields(seconds: real): (int, int, int) {
    (FloorDiv(seconds, 3600.0), FloorDiv(FloorMod(seconds, 3600.0), 60.0), FloorMod(seconds, 60.0).Floor)
  }

  /** Minutes and seconds lie in [0, 60), and the three fields put together give the
      whole seconds of the input, for negative inputs too. */
  lemma TimeFieldsDecompose(seconds: real)
    ensures var (h, m, sec) := TimeFields(seconds);
      0 <= m < 60 && 0 <= sec < 60 && 3600 * h + 60 * m + sec == seconds.Floor
  {
    var h := FloorDiv(seconds, 3600.0);
    var r := FloorMod(seconds, 3600.0);
    var m := FloorDiv(r, 60.0);
    var r2 := FloorMod(r, 60.0);
    var q := 60 * h + m;
    assert seconds == (60 * q) as real + r2;
    assert 0.0 <= r2 < 60.0;
    // seconds / 60 lies in [q, q + 1), so the minute-modulo is r2 as well
    MinuteBounds(seconds, q, r2);
    FloorDivUnique(seconds, 60.0, q);
    assert FloorMod(seconds, 60.0) == r2;
    FloorOfShift(3600 * h + 60 * m, r2);
  }

  lemma MinuteBounds(seconds: real, q: int, r: real)
    requires seconds == (60 * q) as real + r && 0.0 <= r < 60.0
    ensures q as real * 60.0 <= seconds < (q + 1) as real * 60.0
  {
  }

  lemma FloorDivUnique(x: real, m: real, q: int)
    requires m > 0.0
    requires q as real * m <= x < (q + 1) as real * m
    ensures FloorDiv(x, m) == q
  {
    var p := FloorDiv(x, m);
    if p < q {
      BelowNextMultiple(x, m, p, q);
    } else if p > q {
      BelowNextMultiple(x, m, q, p);
    }
  }

  /** No real lies both below (p + 1) m and at or above q m when p < q. */
  lemma BelowNextMultiple(x: real, m: real, p: int, q: int)
    requires m > 0.0 && p < q
    requires x < (p + 1) as real * m
    ensures x < q as real * m
  {
    MulMonotone((p + 1) as real, q as real, m);
  }

  lemma FloorOfShift(k: int, r: real)
    requires 0.0 <= r
    ensures (k as real + r).Floor == k + r.Floor
  {
  }

  /** The position of the first `c` in `s`, or `|s|` when there is none. */
  function IndexOf(s: string, c: char): (k: nat)
    ensures k <= |s|
    ensures forall j :: 0 <= j < k ==> s[j] != c
    ensures k < |s| ==> s[k] == c
  {
    if s == [] then 0 else if s[0] == c then 0 else 1 + IndexOf(s[1..], c)
  }

  /** Python's `s.split(':')`. */
  function SplitColon(s: string): (parts: seq<string>)
    ensures |parts| >= 1
    decreases |s|
  {
    var k := IndexOf(s, ':');
    if k == |s| then [s] else [s[..k]] + SplitColon(s[k + 1..])
  }

  lemma SplitAfterField(a: string, rest: string)
    requires IsDigitString(a)
    ensures SplitColon(a + ":" + rest) == [a] + SplitColon(rest)
  {
    var s := a + ":" + rest;
    assert s[|a|] == ':';
    assert forall j :: 0 <= j < |a| ==> s[j] == a[j];
    assert IndexOf(s, ':') == |a|;
    assert s[..|a|] == a;
    assert s[|a| + 1..] == rest;
  }

  lemma SplitOfDigits(a: string)
    requires IsDigitString(a)
    ensures SplitColon(a) == [a]
  {
    assert forall j :: 0 <= j < |a| ==> a[j] != ':';
  }

  /** Reads an `HH:MM:SS` string back into its three numbers. */
  function ParseTime(s: string): Option<(nat, nat, nat)> {
    var parts := SplitColon(s);
    if |parts| == 3 && IsDigitString(parts[0]) && IsDigitString(parts[1]) && IsDigitString(parts[2])
    then Some((ParseDigits(parts[0]), ParseDigits(parts[1]), ParseDigits(parts[2])))
    else None
  }

  /** Three digit fields joined by colons read back as their values. */
  lemma ParseTimeOfFields(a: string, b: string, c: string)
    requires IsDigitString(a) && IsDigitString(b) && IsDigitString(c)
    ensures ParseTime(a + ":" + b + ":" + c) == Some((ParseDigits(a), ParseDigits(b), ParseDigits(c)))
  {
    SplitThree(a, b, c);
  }

  lemma SplitThree(a: string, b: string, c: string)
    requires IsDigitString(a) && IsDigitString(b) && IsDigitString(c)
    ensures SplitColon(a + ":" + b + ":" + c) == [a, b, c]
  {
    JoinRegroups(a, b, c);
    SplitTwo(b, c);
    SplitAfterField(a, b + ":" + c);
  }

  lemma SplitTwo(b: string, c: string)
    requires IsDigitString(b) && IsDigitString(c)
    ensures SplitColon(b + ":" + c) == [b, c]
  {
    SplitAfterField(b, c);
    SplitOfDigits(c);
  }

  lemma JoinRegroups(a: string, b: string, c: string)
    ensures a + ":" + b + ":" + c == a + ":" + (b + ":" + c)
  {
  }
}
