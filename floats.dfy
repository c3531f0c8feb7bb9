/** Python 2's `float()` on a text, with the value it denotes taken exactly: surrounding
    whitespace, an optional sign, then a decimal numeral (digits with an optional point
    and fraction, at least one digit in all, then an optional exponent with `e` or `E`)
    or one of `inf`, `infinity` and `nan` in any letter case. Anything else raises,
    modelled as `None`. */
module Floats {
  import opened Wrappers
  import opened Text
  import opened Numerals

  datatype FloatValue = Finite(x: real) | Infinity(negative: bool) | NotANumber

  function Lower(c: char): char {
    if 'A' <= c <= 'Z' then (c as int + 32) as char else c
  }

  function LowerAscii(s: string): (r: string)
    ensures |r| == |s| && forall k :: 0 <= k < |s| ==> r[k] == Lower(s[k])
  {
    seq(|s|, k requires 0 <= k < |s| => Lower(s[k]))
  }

  /** Length of the prefix of the shape `\.[0-9]*`, or 0. */
  function PointLen(s: string): (k: nat)
    ensures k <= |s|
  {
    if |s| > 0 && s[0] == '.' then 1 + DigitRun(s[1..]) else 0
  }

  /** An exponent: whether it is negative, and its magnitude. */
  datatype ExpValue = ExpValue(negative: bool, magnitude: nat)

  /** The optional exponent `[eE][+-]?[0-9]+` that must make up the whole of `e`. */
  function ExpText(e: string): Option<ExpValue> {
    if |e| == 0 then Some(ExpValue(false, 0))
    else if e[0] != 'e' && e[0] != 'E' then None
    else
      var sg := SignLen(e[1..]);
      var ds := e[1 + sg..];
      if |ds| == 0 || !AllDigits(ds) then None
      else Some(ExpValue(sg == 1 && e[1] == '-', DigitsValue(ds)))
  }

  /** The value of an unsigned decimal numeral that makes up the whole of `b`: digits,
      an optional point with digits after it, at least one digit in all, then an
      optional exponent. */
  function DecimalText(b: string): Option<real> {
    var a := DigitRun(b);
    var rest := b[a..];
    var p := PointLen(rest);
    var ex := ExpText(rest[p..]);
    if a == 0 && p <= 1 then None
    else if ex.None? then None
    else
      var m := DigitsValue(b[..a]) as real + (if p > 0 then FractionValue(rest[1..p]) else 0.0);
      Some(Scale(m, ex.value.negative, ex.value.magnitude))
  }

  /** `float(s)`. */
  function ParseFloat(s: string): Option<FloatValue> {
    var u := Strip(s);
    var sg := SignLen(u);
    var body := u[sg..];
    var neg := sg == 1 && u[0] == '-';
    var low := LowerAscii(body);
    if low == "inf" || low == "infinity" then Some(Infinity(neg))
    else if low == "nan" then Some(NotANumber)
    else
      var v := DecimalText(body);
      if v.None? then None else Some(Finite(if neg then -v.value else v.value))
  }

  /** A text that starts with a digit is none of the special words. */
  lemma NotSpecial(body: string)
    requires |body| > 0 && IsDigit(body[0])
    ensures LowerAscii(body) != "inf" && LowerAscii(body) != "infinity" && LowerAscii(body) != "nan"
  {
    assert LowerAscii(body)[0] == body[0];
  }

  /** A text that starts and ends with a digit has nothing to strip. */
  lemma StripNumeral(t: string)
    requires |t| > 0 && IsDigit(t[0]) && IsDigit(t[|t| - 1])
    ensures Strip(t) == t
  {
    assert [] + t + [] == t;
    TrimPadded([], t, [], Whitespace);
  }

  /** `float` reads every numeral the Formant report regexes capture as the exact value
      the model gives it. */
  lemma ParseFloatNumeral(t: string, a: nat, b: nat)
    requires NumeralShape(t, a, b)
    ensures ParseFloat(t) == Some(Finite(NumeralValue(t)))
  {
    NumeralWhole(t, a, b);
    NumeralEnds(t);
    StripNumeral(t);
    assert SignLen(t) == 0 && t[0..] == t;
    NotSpecial(t);
    var a' := DigitRun(t);
    var fb := FracLen(t[a'..]);
    NumeralLenParts(t, a', fb, ExpLen(t[a' + fb..]));
    DecimalAgrees(t, a', fb);
  }

  /** A numeral is scanned to its end. */
  lemma NumeralWhole(t: string, a: nat, b: nat)
    requires NumeralShape(t, a, b)
    ensures NumeralLen(t) == |t| > 0
  {
    assert t[..|t|] == t;
    NumeralLenLongest(t);
  }

  /** ... so it starts and ends with a digit. */
  lemma NumeralEnds(t: string)
    requires NumeralLen(t) == |t| > 0
    ensures IsDigit(t[0]) && IsDigit(t[|t| - 1])
  {
    var a := DigitRun(t);
    var fb := FracLen(t[a..]);
    var e := t[a + fb..];
    NumeralLenParts(t, a, fb, ExpLen(e));
    DigitRunSpan(t);
    assert t[..a][0] == t[0];
    if |e| > 0 {
      var ds := e[1 + SignLen(e[1..])..];
      DigitRunSpan(ds);
      assert ds[..DigitRun(ds)][|ds| - 1] == t[|t| - 1];
    } else if fb > 0 {
      var u := t[a..][1..];
      DigitRunSpan(u);
      assert u[..DigitRun(u)][fb - 2] == t[|t| - 1];
    } else {
      assert t[..a][a - 1] == t[|t| - 1];
    }
  }

  /** On a numeral split by the scanner into its digit run, fraction and exponent, the
      decimal reading gives the numeral's value. */
  lemma DecimalAgrees(t: string, a: nat, fb: nat)
    requires 0 < a == DigitRun(t) && fb == FracLen(t[a..]) && ExpLen(t[a + fb..]) == |t| - a - fb
    ensures DecimalText(t) == Some(NumeralValue(t))
  {
    var e := t[a + fb..];
    var x := ExpValue(ExpNegative(e), ExpMagnitude(e));
    assert t[a..][fb..] == e;
    assert PointLen(t[a..]) == fb by {
      PointAgrees(t[a..], fb);
    }
    assert DigitsValue(t[..a]) as real + (if fb > 0 then FractionValue(t[a..][1..fb]) else 0.0) == Mantissa(t) by {
      DecimalMantissa(t, a, fb);
    }
    assert ExpText(t[a..][fb..]) == Some(x) by {
      ExpAgrees(e);
    }
    DecimalOf(t, a, fb, Mantissa(t), x);
    NumeralValueOf(t, e);
  }

  /** `NumeralValue` spelled out from the exponent part `e` of the numeral. */
  lemma NumeralValueOf(t: string, e: string)
    requires e == t[DigitRun(t) + FracLen(t[DigitRun(t)..])..]
    ensures NumeralValue(t) == Scale(Mantissa(t), ExpNegative(e), ExpMagnitude(e))
  {
    ExponentOf(t, e);
  }

  lemma ExponentOf(t: string, e: string)
    requires e == t[DigitRun(t) + FracLen(t[DigitRun(t)..])..]
    ensures Exponent(t) == (ExpNegative(e), ExpMagnitude(e))
  {
    assert ExpPartOf(t) == e;
    if ExpLen(e) == 0 {
      assert ExpNegative(e) == false && ExpMagnitude(e) == 0;
    }
  }

  lemma DecimalMantissa(t: string, a: nat, fb: nat)
    requires 0 < a == DigitRun(t) && fb == FracLen(t[a..])
    ensures DigitsValue(t[..a]) as real + (if fb > 0 then FractionValue(t[a..][1..fb]) else 0.0) == Mantissa(t)
  {
    if fb > 0 {
      SliceOfSlice(t, a, 1, fb);
    }
  }

  lemma SliceOfSlice(t: string, a: nat, i: nat, j: nat)
    requires a <= |t| && i <= j <= |t| - a
    ensures t[a..][i..j] == t[a + i..a + j]
  {
  }

  /** `DecimalText` spelled out from its pieces. */
  lemma DecimalOf(b: string, a: nat, p: nat, m: real, x: ExpValue)
    requires 0 < a == DigitRun(b) && p == PointLen(b[a..]) && ExpText(b[a..][p..]) == Some(x)
    requires m == DigitsValue(b[..a]) as real + (if p > 0 then FractionValue(b[a..][1..p]) else 0.0)
    ensures DecimalText(b) == Some(Scale(m, x.negative, x.magnitude))
  {
  }

  lemma PointAgrees(rest: string, fb: nat)
    requires fb == FracLen(rest) && ExpLen(rest[fb..]) == |rest| - fb
    ensures PointLen(rest) == fb
  {
  }

  /** An exponent the scanner reads to the end is one `float` accepts, with the same
      sign and magnitude. */
  lemma ExpAgrees(e: string)
    requires ExpLen(e) == |e|
    ensures ExpText(e) == Some(ExpValue(ExpNegative(e), ExpMagnitude(e)))
  {
    if |e| > 0 {
      var ds := e[1 + SignLen(e[1..])..];
      DigitRunSpan(ds);
      assert ds[..DigitRun(ds)] == ds;
      assert e[1 + SignLen(e[1..])..ExpLen(e)] == ds;
    }
  }

  /** `float('%d' % n)` is `n`. */
  lemma ParseFloatNat(n: nat)
    ensures ParseFloat(NatToString(n)) == Some(Finite(n as real))
  {
    var s := NatToString(n);
    assert NumeralShape(s, |s|, |s|) by {
      assert s[..|s|] == s;
      assert s[|s|..|s|] == [] && s[|s|..] == [];
    }
    ParseFloatNumeral(s, |s|, |s|);
    IntegralNumeral(s);
    NatToStringValue(n);
  }

}
