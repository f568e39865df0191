/** The text of one fixed-width header field as the plain EDF reader takes it:
    the bytes are read (clipped at the end of the file), decoded as ASCII with
    undecodable bytes dropped, stripped of surrounding white space, and the
    numeric fields handed to Python's `int()` or `float()`. */
module EdfText {
  import opened Base
  import opened Clock

  newtype byte = x: int | 0 <= x < 256

  /** `f.seek(start); f.read(width)`, and equally the slice `s[start:start + width]`:
      both stop at the end of the data. */
  function Clip(s: seq<byte>, start: nat, width: nat): (r: seq<byte>)
    ensures |r| <= width
  {
    if start >= |s| then [] else s[start..Min(start + width, |s|)]
  }

  /** A field stored at `start` is read back whole, whatever surrounds it. */
  lemma ClipOfLayout(before: seq<byte>, field: seq<byte>, after: seq<byte>)
    ensures Clip(before + field + after, |before|, |field|) == field
  {
    var s := before + field + after;
    if field != [] {
      assert s[|before|..|before| + |field|] == field;
    }
  }

  // ------------------------------------------------------- ASCII decoding

  /** `bytes.decode('ascii', errors='ignore')`: every byte above 127 is dropped. */
  function AsciiDecode(bs: seq<byte>): (s: string)
    ensures |s| <= |bs| && IsAscii(s)
  {
    if bs == [] then []
    else (if bs[0] < 128 then [bs[0] as int as char] else []) + AsciiDecode(bs[1..])
  }

  predicate IsAscii(s: string) {
    forall k :: 0 <= k < |s| ==> s[k] as int < 128
  }

  /** The bytes of an ASCII string. */
  function AsciiEncode(s: string): (bs: seq<byte>)
    requires IsAscii(s)
    ensures |bs| == |s|
    ensures forall k :: 0 <= k < |s| ==> bs[k] as int == s[k] as int
  {
    seq(|s|, k requires 0 <= k < |s| => s[k] as int as byte)
  }

  lemma {:induction false} DecodeAppend(a: seq<byte>, b: seq<byte>)
    ensures AsciiDecode(a + b) == AsciiDecode(a) + AsciiDecode(b)
  {
    if a == [] {
      assert a + b == b;
    } else {
      assert (a + b)[1..] == a[1..] + b;
      DecodeAppend(a[1..], b);
    }
  }

  /** Decoding undoes encoding on ASCII text. */
  lemma {:induction false} DecodeEncode(s: string)
    requires IsAscii(s)
    ensures AsciiDecode(AsciiEncode(s)) == s
  {
    if s != [] {
      var bs := AsciiEncode(s);
      assert bs[1..] == AsciiEncode(s[1..]);
      DecodeEncode(s[1..]);
      assert s == [s[0]] + s[1..];
    }
  }

  /** Decoding drops exactly the bytes above 127. */
  lemma {:induction false} DecodeLength(bs: seq<byte>)
    ensures |AsciiDecode(bs)| == |bs| <==> forall k :: 0 <= k < |bs| ==> bs[k] < 128
  {
    if bs != [] {
      DecodeLength(bs[1..]);
      assert forall k :: 1 <= k < |bs| ==> bs[k] == bs[1..][k - 1];
    }
  }

  // ------------------------------------------------------- white space

  /** The characters `str.strip()` removes from ASCII text: tab, line feed, vertical
      tab, form feed, carriage return, the four separators 0x1C to 0x1F, and space. */
  predicate IsSpace(c: char) {
    9 <= c as int <= 13 || 28 <= c as int <= 32
  }

  predicate AllSpace(s: string) {
    forall k :: 0 <= k < |s| ==> IsSpace(s[k])
  }

  /** Neither end of `s` is white space. */
  predicate Trimmed(s: string) {
    s == [] || (!IsSpace(s[0]) && !IsSpace(s[|s| - 1]))
  }

  function LStrip(s: string): (r: string)
    ensures |r| <= |s|
  {
    if s != [] && IsSpace(s[0]) then LStrip(s[1..]) else s
  }

  function RStrip(s: string): (r: string)
    ensures |r| <= |s|
  {
    if s != [] && IsSpace(s[|s| - 1]) then RStrip(s[..|s| - 1]) else s
  }

  /** `str.strip()`. */
  function Strip(s: string): (r: string) {
    RStrip(LStrip(s))
  }

  /** `lstrip()` removes white space from the front and stops at anything else. */
  lemma {:induction false} LStripFacts(s: string)
    ensures var r := LStrip(s);
      r == s[|s| - |r|..] && (r != [] ==> !IsSpace(r[0]))
      && forall k :: 0 <= k < |s| - |r| ==> IsSpace(s[k])
  {
    if s != [] && IsSpace(s[0]) {
      LStripFacts(s[1..]);
      assert forall k :: 1 <= k < |s| ==> s[k] == s[1..][k - 1];
    }
  }

  /** `rstrip()` removes white space from the back and stops at anything else. */
  lemma {:induction false} RStripFacts(s: string)
    ensures var r := RStrip(s);
      r == s[..|r|] && (r != [] ==> !IsSpace(r[|r| - 1]))
      && forall k :: |r| <= k < |s| ==> IsSpace(s[k])
  {
    if s != [] && IsSpace(s[|s| - 1]) {
      RStripFacts(s[..|s| - 1]);
    }
  }

  /** The stripped text has no white space at either end. */
  lemma StripTrimmed(s: string)
    ensures Trimmed(Strip(s))
  {
    var l := LStrip(s);
    var r := RStrip(l);
    LStripFacts(s);
    RStripFacts(l);
    if r != [] {
      assert r[0] == l[0];
    }
  }

  /** The stripped text is the middle of `s`, between margins of white space. */
  lemma StripMiddle(s: string)
    ensures var l := LStrip(s); var a := |s| - |l|; var r := RStrip(l);
      s[a..a + |r|] == r && AllSpace(s[..a]) && AllSpace(s[a + |r|..])
  {
    var l := LStrip(s);
    var r := RStrip(l);
    LStripFacts(s);
    RStripFacts(l);
    Margins(s, l, r);
  }

  lemma Margins(s: string, l: string, r: string)
    requires |l| <= |s| && l == s[|s| - |l|..] && forall k :: 0 <= k < |s| - |l| ==> IsSpace(s[k])
    requires |r| <= |l| && r == l[..|r|] && forall k :: |r| <= k < |l| ==> IsSpace(l[k])
    ensures var a := |s| - |l|;
      s[a..a + |r|] == r && AllSpace(s[..a]) && AllSpace(s[a + |r|..])
  {
    var a := |s| - |l|;
    var tail := s[a + |r|..];
    forall k | 0 <= k < |tail|
      ensures IsSpace(tail[k])
    {
      assert tail[k] == l[|r| + k];
    }
  }

  lemma {:induction false} RStripSpaces(s: string, pad: string)
    requires AllSpace(pad)
    requires s == [] || !IsSpace(s[|s| - 1])
    ensures RStrip(s + pad) == s
    decreases |pad|
  {
    if pad != [] {
      var sp := s + pad;
      assert sp[..|sp| - 1] == s + pad[..|pad| - 1];
      RStripSpaces(s, pad[..|pad| - 1]);
    } else {
      assert s + pad == s;
    }
  }

  lemma {:induction false} LStripSpaces(pad: string)
    requires AllSpace(pad)
    ensures LStrip(pad) == []
    decreases |pad|
  {
    if pad != [] {
      LStripSpaces(pad[1..]);
    }
  }

  /** A value padded with spaces to the field width strips back to itself. */
  lemma StripPadded(s: string, pad: string)
    requires Trimmed(s) && AllSpace(pad)
    ensures Strip(s + pad) == s
  {
    if s == [] {
      assert s + pad == pad;
      LStripSpaces(pad);
    } else {
      assert LStrip(s + pad) == s + pad;
      RStripSpaces(s, pad);
    }
  }

  /** The text of a field: decoded and stripped. */
  function Text(bs: seq<byte>): (s: string)
    ensures IsAscii(s) && Trimmed(s)
    ensures |s| <= |bs|
  {
    var d := AsciiDecode(bs);
    StripTrimmed(d);
    StripMiddle(d);
    assert Strip(d) == d[|d| - |LStrip(d)|..][..|Strip(d)|];
    Strip(d)
  }

  // ------------------------------------------------------- numbers

  /** An optional leading sign: whether it is a minus, and the rest. */
  function SplitSign(s: string): (r: (bool, string))
    ensures |r.1| <= |s|
  {
    if s != [] && (s[0] == '-' || s[0] == '+') then (s[0] == '-', s[1..]) else (false, s)
  }

  /** Python's `int()` on a stripped ASCII string: an optional sign and at least one
      decimal digit; anything else raises `ValueError`. */
  function ParseInt(s: string): (r: Result<int>)
    ensures r.Err? ==> r.error == ValueError
  {
    var (neg, body) := SplitSign(s);
    if body != [] && IsDigitString(body) then
      Ok(if neg then 0 - ParseDigits(body) else ParseDigits(body))
    else Err(ValueError)
  }

  function Pow10(n: nat): (p: nat)
    ensures p >= 1
  {
    if n == 0 then 1 else 10 * Pow10(n - 1)
  }

  /** Python's `float()` on a stripped ASCII string, in its decimal-point form: an
      optional sign, digits, an optional point and more digits, at least one digit
      in all; anything else raises `ValueError`. */
  function ParseFloat(s: string): (r: Result<real>)
    ensures r.Err? ==> r.error == ValueError
  {
    var (neg, body) := SplitSign(s);
    var dot := IndexOf(body, '.');
    var whole := body[..dot];
    var frac := if dot < |body| then body[dot + 1..] else [];
    if |whole| + |frac| >= 1 && IsDigitString(whole) && IsDigitString(frac) then
      var v := ParseDigits(whole) as real + ParseDigits(frac) as real / Pow10(|frac|) as real;
      Ok(if neg then -v else v)
    else Err(ValueError)
  }

  /** The decimal text of an integer, as `str(n)` writes it. */
  function IntText(n: int): (s: string)
    ensures IsAscii(s) && Trimmed(s) && s != []
  {
    if n < 0 then "-" + Digits(-n) else Digits(n)
  }

  /** `int()` reads back what `str()` writes. */
  lemma IntRoundTrip(n: int)
    ensures ParseInt(IntText(n)) == Ok(n)
  {
    var s := IntText(n);
    if n < 0 {
      assert s[0] == '-' && s[1..] == Digits(-n);
      assert SplitSign(s) == (true, Digits(-n));
      DigitsRoundTrip(-n);
    } else {
      assert Digits(n)[0] != '-' && Digits(n)[0] != '+';
      assert SplitSign(s) == (false, Digits(n));
      DigitsRoundTrip(n);
    }
  }

  /** `float()` agrees with `int()` wherever `int()` succeeds. */
  lemma FloatAgreesWithInt(s: string)
    requires ParseInt(s).Ok?
    ensures ParseFloat(s) == Ok(ParseInt(s).value as real)
  {
    var (neg, body) := SplitSign(s);
    var dot := IndexOf(body, '.');
    assert body[..dot] == body;
  }

  /** So `float(str(n))` is `n`. */
  lemma FloatOfIntText(n: int)
    ensures ParseFloat(IntText(n)) == Ok(n as real)
  {
    IntRoundTrip(n);
    FloatAgreesWithInt(IntText(n));
  }

  /** An empty field is no number. */
  lemma EmptyTextsFail()
    ensures ParseInt("") == Err(ValueError) && ParseFloat("") == Err(ValueError)
  {
    assert SplitSign("") == (false, "");
  }

  /** A fraction after the point: `float("0.5")` is one half. */
  lemma HalfExample()
    ensures ParseFloat("0.5") == Ok(0.5)
  {
    var s := "0.5";
    assert SplitSign(s) == (false, s);
    assert IndexOf(s, '.') == 1;
    assert s[..1] == "0" && s[2..] == "5";
    assert ParseDigits("0") == 0 by { assert "0"[..0] == []; }
    assert ParseDigits("5") == 5 by { assert "5"[..0] == []; }
  }

  /** The whole part may be empty, and the sign applies to the fraction: `float("-.5")`. */
  lemma SignedFractionExample()
    ensures ParseFloat("-.5") == Ok(-0.5)
  {
    var t := "-.5";
    assert SplitSign(t) == (true, ".5");
    assert IndexOf(".5", '.') == 0;
    assert ".5"[..0] == [] && ".5"[1..] == "5";
    assert ParseDigits("5") == 5 by { assert "5"[..0] == []; }
  }

  /** A lone point is no float, and a point is no part of an integer. */
  lemma MalformedNumbers()
    ensures ParseFloat(".").Err? && ParseInt("1.0").Err?
  {
    assert IndexOf(".", '.') == 0;
    assert SplitSign("1.0") == (false, "1.0");
    assert "1.0"[1] == '.';
  }
}
