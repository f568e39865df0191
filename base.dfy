/** Small pieces of Python semantics the analyser relies on: optional values,
    raised exceptions, `int()` of a float, slice bounds, substring tests and
    ASCII case mapping. */
module Base {

  datatype Option<+T> = None | Some(value: T)

  /** The exceptions the modelled code can raise. */
  datatype PyError =
    | ValueError         // int()/float() of a malformed field, range() with step 0
    | TypeError          // range() with a float step, subscripting None
    | ZeroDivisionError  // float division by 0.0
    | UnboundLocalError  // a name bound only on some paths
    | SeekError          // seeking a file to a negative position

  datatype Result<+T> = Ok(value: T) | Err(error: PyError)

  /** Python's `int(x)` on a float: truncation toward zero. */
  function Trunc(x: real): (r: int)
    ensures x >= 0.0 ==> 0.0 <= r as real <= x < r as real + 1.0
    ensures x < 0.0 ==> r as real - 1.0 < x <= r as real <= 0.0
  {
    if x >= 0.0 then x.Floor else -((-x).Floor)
  }

  /** Where a Python/NumPy slice bound `i` lands in a sequence of length `n`:
      negative bounds count from the end and everything is clamped to [0, n]. */
  function SliceBound(i: int, n: nat): (b: nat)
    ensures b <= n
    ensures 0 <= i <= n ==> b == i
    ensures i > n ==> b == n
    ensures i < 0 ==> b as int == if i + n < 0 then 0 else i + n
  {
    if i < 0 then (if i + n < 0 then 0 else i + n) else if i > n then n else i
  }

  /** Multiplying by a positive factor keeps the order. */
  lemma MulMonotone(a: real, b: real, m: real)
    requires a <= b && m > 0.0
    ensures a * m <= b * m
  {
  }

  /** The same on integers. */
  lemma MulMonotoneInt(a: int, b: int, m: int)
    requires a <= b && m >= 0
    ensures a * m <= b * m
  {
  }

  function Min(a: int, b: int): int { if a <= b then a else b }
  function Max(a: int, b: int): int { if a >= b then a else b }

  /** `sub` occurs in `s` starting at index `k`. */
  predicate MatchAt(s: string, sub: string, k: int) {
    0 <= k && k + |sub| <= |s| && s[k..k + |sub|] == sub
  }

  /** Python's `sub in s` on strings. */
  predicate Contains(s: string, sub: string) {
    exists k :: 0 <= k <= |s| - |sub| && MatchAt(s, sub, k)
  }

  function UpperChar(c: char): (u: char)
    ensures !('a' <= u <= 'z')
    ensures 'A' <= c <= 'Z' || '0' <= c <= '9' ==> u == c
  {
    if 'a' <= c <= 'z' then (c as int - 32) as char else c
  }

  function LowerChar(c: char): (l: char)
    ensures !('A' <= l <= 'Z')
  {
    if 'A' <= c <= 'Z' then (c as int + 32) as char else c
  }

  /** `str.upper()` restricted to the ASCII letters. */
  function Upper(s: string): (u: string)
    ensures |u| == |s|
    ensures forall k :: 0 <= k < |s| ==> u[k] == UpperChar(s[k])
  {
    if s == [] then [] else [UpperChar(s[0])] + Upper(s[1..])
  }

  /** `str.lower()` restricted to the ASCII letters. */
  function Lower(s: string): (l: string)
    ensures |l| == |s|
    ensures forall k :: 0 <= k < |s| ==> l[k] == LowerChar(s[k])
  {
    if s == [] then [] else [LowerChar(s[0])] + Lower(s[1..])
  }

  /** Number of elements of `s` equal to `x`. */
  function Occurrences<T(==)>(s: seq<T>, x: T): (n: nat)
    ensures n <= |s|
  {
    if s == [] then 0 else Occurrences(s[..|s| - 1], x) + (if s[|s| - 1] == x then 1 else 0)
  }

  /** `[f(0), ..., f(n - 1)]`, one element after another. */
  function Tabulate<T>(n: nat, f: nat -> T): (s: seq<T>)
    ensures |s| == n
  {
    if n == 0 then [] else Tabulate(n - 1, f) + [f(n - 1)]
  }

  lemma {:induction false} TabulateAt<T>(n: nat, f: nat -> T, k: nat)
    requires k < n
    ensures Tabulate(n, f)[k] == f(k)
  {
    if k < n - 1 {
      TabulateAt(n - 1, f, k);
    }
  }

  lemma {:induction false} TabulateSame<T>(n: nat, f: nat -> T, g: nat -> T)
    requires forall k :: 0 <= k < n ==> f(k) == g(k)
    ensures Tabulate(n, f) == Tabulate(n, g)
  {
    if n > 0 {
      TabulateSame(n - 1, f, g);
    }
  }

  /** The elements of `xs` that satisfy `p`, in order (a boolean-mask selection). */
  function Filter(xs: seq<real>, p: real -> bool): (r: seq<real>)
    ensures |r| <= |xs|
    ensures forall k :: 0 <= k < |r| ==> p(r[k])
  {
    if xs == [] then []
    else Filter(xs[..|xs| - 1], p) + (if p(xs[|xs| - 1]) then [xs[|xs| - 1]] else [])
  }

  /** A value is kept exactly as often as it occurs, when it satisfies `p`, and not at all otherwise. */
  lemma {:induction false} FilterKeepsExactly(xs: seq<real>, p: real -> bool, x: real)
    ensures multiset(Filter(xs, p))[x] == if p(x) then multiset(xs)[x] else 0
  {
    if xs != [] {
      var init := xs[..|xs| - 1];
      FilterKeepsExactly(init, p, x);
      assert xs == init + [xs[|xs| - 1]];
    }
  }

  /** Every kept element passes the test. */
  lemma {:induction false} FilterPasses(xs: seq<real>, p: real -> bool)
    ensures forall v :: v in Filter(xs, p) ==> p(v)
  {
    if xs != [] {
      FilterPasses(xs[..|xs| - 1], p);
    }
  }

  /** Every kept element is an element of the input. */
  lemma {:induction false} FilterSelects(xs: seq<real>, p: real -> bool, k: nat)
    requires k < |Filter(xs, p)|
    ensures exists j :: 0 <= j < |xs| && Filter(xs, p)[k] == xs[j]
  {
    var init := xs[..|xs| - 1];
    if k < |Filter(init, p)| {
      FilterSelects(init, p, k);
      var j :| 0 <= j < |init| && Filter(init, p)[k] == init[j];
      assert xs[j] == init[j];
    } else {
      assert Filter(xs, p)[k] == xs[|xs| - 1];
    }
  }
}
