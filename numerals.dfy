/** Decimal numerals: the unsigned float numeral captured by the Formant report regexes,
    `[0-9]+(\.[0-9]+)?(e[+-]?[0-9]+)?`, the exact value it denotes, the decimal digit
    strings of the bracketed indices, Python's `'%d' %` and Python's `int()` on text. */
module Numerals {
  import opened Wrappers
  import opened Text

  predicate IsDigit(c: char) {
    '0' <= c <= '9'
  }

  predicate AllDigits(s: string) {
    forall j :: 0 <= j < |s| ==> IsDigit(s[j])
  }

  /** Length of the leading run of digits. */
  function DigitRun(s: string): (k: nat)
    ensures k <= |s|
    decreases |s|
  {
    if |s| > 0 && IsDigit(s[0]) then 1 + DigitRun(s[1..]) else 0
  }

  /** The run is all digits and is followed by a non-digit or by the end. */
  lemma {:induction false} DigitRunSpan(s: string)
    ensures AllDigits(s[..DigitRun(s)])
    ensures DigitRun(s) < |s| ==> !IsDigit(s[DigitRun(s)])
    decreases |s|
  {
    if |s| > 0 && IsDigit(s[0]) {
      var k := DigitRun(s);
      DigitRunSpan(s[1..]);
      assert s[..k] == [s[0]] + s[1..][..k - 1];
      if k < |s| {
        assert s[k] == s[1..][k - 1];
      }
    }
  }

  /** Length of the longest prefix of the shape `\.[0-9]+`, or 0. */
  function FracLen(s: string): (k: nat)
    ensures k <= |s|
  {
    if |s| > 0 && s[0] == '.' && DigitRun(s[1..]) > 0 then 1 + DigitRun(s[1..]) else 0
  }

  function SignLen(s: string): nat {
    if |s| > 0 && (s[0] == '+' || s[0] == '-') then 1 else 0
  }

  /** Length of the longest prefix of the shape `e[+-]?[0-9]+`, or 0. */
  function ExpLen(s: string): (k: nat)
    ensures k <= |s|
  {
    if |s| > 0 && s[0] == 'e' && DigitRun(s[1 + SignLen(s[1..])..]) > 0
    then 1 + SignLen(s[1..]) + DigitRun(s[1 + SignLen(s[1..])..])
    else 0
  }

  /** The end of the run of digits at `pos`. */
  function DigitEnd(s: string, pos: nat): (e: nat)
    requires pos <= |s|
    ensures pos <= e <= |s|
    decreases |s| - pos
  {
    if pos < |s| && IsDigit(s[pos]) then DigitEnd(s, pos + 1) else pos
  }

  lemma {:induction false} DigitEndDigits(s: string, pos: nat)
    requires pos <= |s|
    ensures AllDigits(s[pos..DigitEnd(s, pos)])
    decreases |s| - pos
  {
    if pos < |s| && IsDigit(s[pos]) {
      DigitEndDigits(s, pos + 1);
      assert s[pos..DigitEnd(s, pos)] == [s[pos]] + s[pos + 1..DigitEnd(s, pos + 1)];
    }
  }

  /** The end of the fraction `\.[0-9]+` at `pos`, or `pos` when none follows. */
  function FracEnd(s: string, pos: nat): (e: nat)
    requires pos <= |s|
    ensures pos <= e <= |s|
  {
    if pos < |s| && s[pos] == '.' && DigitEnd(s, pos + 1) > pos + 1 then DigitEnd(s, pos + 1) else pos
  }

  /** The end of the exponent `e[+-]?[0-9]+` at `pos`, or `pos` when none follows. */
  function ExpEnd(s: string, pos: nat): (e: nat)
    requires pos <= |s|
    ensures pos <= e <= |s|
  {
    if pos < |s| && s[pos] == 'e' then
      var g := if pos + 1 < |s| && (s[pos + 1] == '+' || s[pos + 1] == '-') then pos + 2 else pos + 1;
      if DigitEnd(s, g) > g then DigitEnd(s, g) else pos
    else pos
  }

  /** The end of the numeral group matched at `pos`, as `re.match` takes it: the greedy
      integer part, then the fraction if one follows, then the exponent if one follows;
      `pos` itself when no digit is there. */
  function NumeralEnd(s: string, pos: nat): (e: nat)
    requires pos <= |s|
    ensures pos <= e <= |s|
  {
    var a := DigitEnd(s, pos);
    if a == pos then pos else ExpEnd(s, FracEnd(s, a))
  }

  /** Length of what `re.match` captures for the numeral group at the start of `s`:
      the same scan as `NumeralEnd`, stated on the text rather than on a position. */
  function NumeralLen(s: string): (k: nat)
    ensures k <= |s|
  {
    var a := DigitRun(s);
    if a == 0 then 0
    else
      var b := FracLen(s[a..]);
      a + b + ExpLen(s[a + b..])
  }

  // ---- The grammar, stated independently of the scanner above ----

  predicate IsFrac(u: string) {
    u == [] || (|u| >= 2 && u[0] == '.' && AllDigits(u[1..]))
  }

  predicate IsExp(u: string) {
    u == [] ||
    (|u| >= 2 && u[0] == 'e' &&
     (AllDigits(u[1..]) || (|u| >= 3 && (u[1] == '+' || u[1] == '-') && AllDigits(u[2..]))))
  }

  /** `t` splits at `a` and `b` into digits, optional fraction and optional exponent. */
  predicate NumeralShape(t: string, a: nat, b: nat) {
    0 < a <= b <= |t| && AllDigits(t[..a]) && IsFrac(t[a..b]) && IsExp(t[b..])
  }

  /** `t` is wholly a numeral of the grammar. */
  ghost predicate IsNumeral(t: string) {
    exists a: nat, b: nat :: NumeralShape(t, a, b)
  }

  lemma {:induction false} DigitRunLongest(s: string, a: nat)
    requires a <= |s| && AllDigits(s[..a])
    ensures a <= DigitRun(s)
    decreases a
  {
    if a > 0 {
      assert IsDigit(s[..a][0]);
      assert s[1..][..a - 1] == s[..a][1..];
      DigitRunLongest(s[1..], a - 1);
    }
  }

  lemma DigitRunAll(s: string)
    requires AllDigits(s)
    ensures DigitRun(s) == |s|
  {
    DigitRunLongest(s, |s|);
    assert s[..|s|] == s;
  }

  lemma ExpLenFull(u: string)
    requires IsExp(u) && u != []
    ensures ExpLen(u) == |u|
  {
    if AllDigits(u[1..]) {
      assert SignLen(u[1..]) == 0;
      DigitRunAll(u[1..]);
    } else {
      assert SignLen(u[1..]) == 1;
      assert u[1 + 1..] == u[2..];
      DigitRunAll(u[2..]);
    }
  }

  lemma ExpLenShape(u: string)
    ensures IsExp(u[..ExpLen(u)])
  {
    var e := ExpLen(u);
    if e > 0 {
      var sg := SignLen(u[1..]);
      var d := DigitRun(u[1 + sg..]);
      var v := u[..e];
      DigitRunSpan(u[1 + sg..]);
      if sg == 0 {
        assert v[1..] == u[1 + sg..][..d];
      } else {
        assert v[2..] == u[1 + sg..][..d];
      }
    }
  }

  /** An exponent prefix longer than the scanner's is impossible. */
  lemma ExpLenLongest(u: string, k: nat)
    requires ExpLen(u) < k <= |u|
    ensures !IsExp(u[..k])
  {
    var v := u[..k];
    if IsExp(v) {
      assert v[0] == u[0] == 'e';
      if AllDigits(v[1..]) {
        assert SignLen(u[1..]) == 0 by { assert u[1] == v[1]; }
        assert u[1..][..k - 1] == v[1..];
        DigitRunLongest(u[1..], k - 1);
      } else {
        assert v[1] == u[1];
        assert SignLen(u[1..]) == 1;
        assert u[1 + 1..][..k - 2] == v[2..];
        DigitRunLongest(u[2..], k - 2);
      }
    }
  }

  lemma FracLenShape(u: string)
    ensures IsFrac(u[..FracLen(u)])
  {
    var b := FracLen(u);
    if b > 0 {
      DigitRunSpan(u[1..]);
      assert u[..b][1..] == u[1..][..DigitRun(u[1..])];
    }
  }

  /** The scanner's length is that of the longest prefix of the grammar's shape,
      and 0 exactly when no non-empty prefix has that shape. */
  lemma NumeralLenLongest(s: string)
    ensures NumeralLen(s) > 0 ==> IsNumeral(s[..NumeralLen(s)])
    ensures forall k :: NumeralLen(s) < k <= |s| ==> !IsNumeral(s[..k])
  {
    var L := NumeralLen(s);
    if L > 0 {
      var a := DigitRun(s);
      var b := FracLen(s[a..]);
      NumeralLenParts(s, a, b, ExpLen(s[a + b..]));
      ShapeOfParts(s, a, b, ExpLen(s[a + b..]), L);
    }
    forall k | L < k <= |s|
      ensures !IsNumeral(s[..k])
    {
      NumeralLenPrefixNot(s, k);
    }
  }

  /** The scanner's result splits at the digit run and the fraction after it. */
  lemma NumeralLenParts(s: string, a: nat, b: nat, c: nat)
    requires NumeralLen(s) > 0
    requires a == DigitRun(s) && b == FracLen(s[a..]) && c == ExpLen(s[a + b..])
    ensures 0 < a && NumeralLen(s) == a + b + c
  {
  }

  /** At the start of a text, the index-based scan ends where the scanner does. */
  lemma NumeralEndStart(u: string)
    ensures NumeralEnd(u, 0) == NumeralLen(u)
  {
    DigitEndRun(u, 0);
    assert u[0..] == u;
    var a := DigitRun(u);
    if a > 0 {
      FracEndLen(u, a);
      ExpEndLen(u, a + FracLen(u[a..]));
    }
  }

  lemma {:induction false} DigitEndRun(s: string, pos: nat)
    requires pos <= |s|
    ensures DigitEnd(s, pos) == pos + DigitRun(s[pos..])
    decreases |s| - pos
  {
    if pos < |s| {
      assert s[pos..][0] == s[pos];
      if IsDigit(s[pos]) {
        DigitEndRun(s, pos + 1);
        assert s[pos..][1..] == s[pos + 1..];
      }
    }
  }

  lemma FracEndLen(s: string, pos: nat)
    requires pos <= |s|
    ensures FracEnd(s, pos) == pos + FracLen(s[pos..])
  {
    if pos < |s| {
      assert s[pos..][0] == s[pos];
      assert s[pos..][1..] == s[pos + 1..];
      DigitEndRun(s, pos + 1);
    }
  }

  lemma ExpEndLen(s: string, pos: nat)
    requires pos <= |s|
    ensures ExpEnd(s, pos) == pos + ExpLen(s[pos..])
  {
    if pos < |s| {
      var u := s[pos..];
      assert u[0] == s[pos];
      assert u[1..] == s[pos + 1..];
      if pos + 1 < |s| {
        assert u[1..][0] == s[pos + 1];
      }
      var sg := SignLen(u[1..]);
      assert u[1 + sg..] == s[pos + 1 + sg..];
      DigitEndRun(s, pos + 1 + sg);
    }
  }

  /** Scanning from `pos + k` is scanning the rest of the text from `k`. */
  lemma {:induction false} DigitEndShift(s: string, pos: nat, k: nat)
    requires pos + k <= |s|
    ensures DigitEnd(s, pos + k) == pos + DigitEnd(s[pos..], k)
    decreases |s| - pos - k
  {
    if pos + k < |s| {
      assert s[pos..][k] == s[pos + k];
      DigitEndShift(s, pos, k + 1);
    }
  }

  lemma FracEndShift(s: string, pos: nat, k: nat)
    requires pos + k <= |s|
    ensures FracEnd(s, pos + k) == pos + FracEnd(s[pos..], k)
  {
    if pos + k < |s| {
      assert s[pos..][k] == s[pos + k];
      DigitEndShift(s, pos, k + 1);
    }
  }

  lemma ExpEndShift(s: string, pos: nat, k: nat)
    requires pos + k <= |s|
    ensures ExpEnd(s, pos + k) == pos + ExpEnd(s[pos..], k)
  {
    if pos + k < |s| {
      assert s[pos..][k] == s[pos + k];
      if pos + k + 1 < |s| {
        assert s[pos..][k + 1] == s[pos + k + 1];
        DigitEndShift(s, pos, k + 2);
      }
      DigitEndShift(s, pos, k + 1);
    }
  }

  /** The numeral at `pos` of a line is the numeral at the start of the rest of it. */
  lemma NumeralEndShift(s: string, pos: nat)
    requires pos <= |s|
    ensures NumeralEnd(s, pos) == pos + NumeralEnd(s[pos..], 0)
  {
    var u := s[pos..];
    DigitEndShift(s, pos, 0);
    var a := DigitEnd(u, 0);
    if a > 0 {
      FracEndShift(s, pos, a);
      ExpEndShift(s, pos, FracEnd(u, a));
    }
  }

  /** ... which is the scanner's length on that rest. */
  lemma NumeralEndLen(s: string, pos: nat)
    requires pos <= |s|
    ensures NumeralEnd(s, pos) == pos + NumeralLen(s[pos..])
  {
    NumeralEndShift(s, pos);
    NumeralEndStart(s[pos..]);
  }

  lemma ShapeOfParts(s: string, a: nat, b: nat, c: nat, L: nat)
    requires 0 < a == DigitRun(s) && b == FracLen(s[a..]) && c == ExpLen(s[a + b..])
    requires L == a + b + c
    ensures L <= |s| && NumeralShape(s[..L], a, a + b)
  {
    DigitRunPrefix(s, L);
    FracPart(s, L, a, b);
    ExpPart(s, L, a + b);
    ShapeFromParts(s[..L], a, a + b);
  }

  lemma ShapeFromParts(t: string, a: nat, b: nat)
    requires 0 < a <= b <= |t|
    requires AllDigits(t[..a]) && IsFrac(t[a..b]) && IsExp(t[b..])
    ensures NumeralShape(t, a, b)
  {
  }

  lemma DigitRunPrefix(s: string, L: nat)
    requires DigitRun(s) <= L <= |s|
    ensures AllDigits(s[..L][..DigitRun(s)])
  {
    DigitRunSpan(s);
    assert s[..L][..DigitRun(s)] == s[..DigitRun(s)];
  }

  lemma FracPart(s: string, L: nat, a: nat, b: nat)
    requires a + b <= L <= |s| && b == FracLen(s[a..])
    ensures IsFrac(s[..L][a..a + b])
  {
    FracLenShape(s[a..]);
    assert s[..L][a..a + b] == s[a..][..b];
  }

  lemma ExpPart(s: string, L: nat, x: nat)
    requires x <= L <= |s| && L - x == ExpLen(s[x..])
    ensures IsExp(s[..L][x..])
  {
    ExpLenShape(s[x..]);
    assert s[..L][x..] == s[x..][..L - x];
  }

  /** In any numeral-shaped prefix longer than the scanner's result, the integer part
      is the whole leading digit run. */
  lemma IntPartIsRun(s: string, k: nat, a: nat, b: nat)
    requires NumeralLen(s) < k <= |s|
    requires NumeralShape(s[..k], a, b)
    ensures a == DigitRun(s)
  {
    var t := s[..k];
    assert t[..a] == s[..a];
    DigitRunLongest(s, a);
    DigitRunSpan(s);
    if a < DigitRun(s) {
      assert s[..DigitRun(s)][a] == s[a];
    }
    if a < k {
      NoDigitAfterIntPart(t, a, b);
      assert t[a] == s[a];
    }
  }

  /** The integer part of a numeral is followed by a `.`, an `e` or nothing. */
  lemma NoDigitAfterIntPart(t: string, a: nat, b: nat)
    requires NumeralShape(t, a, b) && a < |t|
    ensures !IsDigit(t[a])
  {
    if a < b {
      assert t[a..b][0] == t[a];
    } else {
      assert t[b..][0] == t[a];
    }
  }

  /** ... and the fraction part is no longer than the scanner's fraction ... */
  lemma FracNotLonger(s: string, k: nat, a: nat, b: nat)
    requires a < b <= k <= |s|
    requires IsFrac(s[..k][a..b])
    ensures b - a <= FracLen(s[a..])
  {
    var u := s[a..];
    var w := s[..k][a..b];
    assert w == u[..b - a];
    assert w[1..] == u[1..][..b - a - 1];
    DigitRunLongest(u[1..], b - a - 1);
  }

  /** ... nor shorter. */
  lemma FracNotShorter(s: string, k: nat, a: nat, b: nat)
    requires NumeralLen(s) < k <= |s|
    requires NumeralShape(s[..k], a, b)
    requires a == DigitRun(s)
    ensures b - a >= FracLen(s[a..])
  {
    var t := s[..k];
    var u := s[a..];
    var B := FracLen(u);
    if b - a < B {
      FracChar(u, b - a);
    }
  }

  /** Every character of the scanner's fraction is the point or a digit. */
  lemma FracChar(u: string, c: nat)
    requires c < FracLen(u)
    ensures u[c] == '.' || IsDigit(u[c])
  {
    if c > 0 {
      DigitRunSpan(u[1..]);
      assert u[c] == u[1..][..DigitRun(u[1..])][c - 1];
    }
  }

  lemma NumeralLenPrefixNot(s: string, k: nat)
    requires NumeralLen(s) < k <= |s|
    ensures !IsNumeral(s[..k])
  {
    var t := s[..k];
    if IsNumeral(t) {
      var a: nat, b: nat :| NumeralShape(t, a, b);
      IntPartIsRun(s, k, a, b);
      if a < b {
        FracNotLonger(s, k, a, b);
      }
      FracNotShorter(s, k, a, b);
      ExpTail(s, k, b);
    }
  }

  /** An exponent-shaped tail of a prefix is no longer than the scanner's exponent. */
  lemma ExpTail(s: string, k: nat, b: nat)
    requires b <= k <= |s| && IsExp(s[..k][b..])
    ensures k - b <= ExpLen(s[b..])
  {
    var u := s[b..];
    assert s[..k][b..] == u[..k - b];
    if ExpLen(u) < k - b {
      ExpLenLongest(u, k - b);
    }
  }

  // ---- Values ----

  function DigitValue(c: char): nat {
    if IsDigit(c) then (c as int) - ('0' as int) else 0
  }

  /** The decimal value of a digit string (`int(s)` for a string of digits). */
  function DigitsValue(s: string): nat
    decreases |s|
  {
    if |s| == 0 then 0 else DigitsValue(s[..|s| - 1]) * 10 + DigitValue(s[|s| - 1])
  }

  /** The value of the digits after a decimal point: `0.d1d2...` */
  function FractionValue(ds: string): (v: real)
    ensures 0.0 <= v
    decreases |ds|
  {
    if |ds| == 0 then 0.0 else (DigitValue(ds[0]) as real + FractionValue(ds[1..])) / 10.0
  }

  /** `m` times ten to the power `e`, or divided by it when `neg`. */
  function Scale(m: real, neg: bool, e: nat): (v: real)
    ensures m >= 0.0 ==> v >= 0.0
    decreases e
  {
    if e == 0 then m
    else if neg then Scale(m, neg, e - 1) / 10.0
    else Scale(m, neg, e - 1) * 10.0
  }

  /** The value of the digits and fraction before any exponent. */
  function Mantissa(t: string): (m: real)
    ensures m >= 0.0
  {
    var a := DigitRun(t);
    var b := FracLen(t[a..]);
    var whole := DigitsValue(t[..a]) as real;
    if b == 0 then whole else whole + FractionValue(t[a + 1..a + b])
  }

  /** The text after the digits and the fraction of a numeral: its exponent, if any. */
  function ExpPartOf(t: string): string {
    var a := DigitRun(t);
    t[a + FracLen(t[a..])..]
  }

  /** The sign and magnitude of the exponent of a numeral (`false, 0` when it has none). */
  function Exponent(t: string): (bool, nat) {
    var a := DigitRun(t);
    var b := FracLen(t[a..]);
    var e := t[a + b..];
    if ExpLen(e) == 0 then (false, 0)
    else (e[1] == '-', DigitsValue(e[1 + SignLen(e[1..])..ExpLen(e)]))
  }

  /** Whether the exponent at the start of `e` is negative. */
  predicate ExpNegative(e: string) {
    ExpLen(e) > 0 && e[1] == '-'
  }

  /** The magnitude of the exponent at the start of `e` (0 when there is none). */
  function ExpMagnitude(e: string): nat {
    if ExpLen(e) == 0 then 0 else DigitsValue(e[1 + SignLen(e[1..])..ExpLen(e)])
  }

  /** The exact rational a numeral denotes (what `float` approximates). Only the part
      the scanner matches contributes; an empty or malformed text denotes 0. */
  function NumeralValue(t: string): (v: real)
    ensures v >= 0.0
  {
    var (neg, e) := Exponent(t);
    Scale(Mantissa(t), neg, e)
  }

  /** `int(float(t))` on a numeral: its value truncated (it is never negative). */
  function Truncate(t: string): (n: nat)
  {
    NumeralValue(t).Floor
  }

  /** A numeral with neither fraction nor exponent denotes its decimal value. */
  lemma IntegralNumeral(t: string)
    requires AllDigits(t)
    ensures NumeralValue(t) == DigitsValue(t) as real
    ensures Truncate(t) == DigitsValue(t)
  {
    DigitRunAll(t);
    assert t[|t|..] == [];
    assert t[..|t|] == t;
  }

  function DigitChar(d: nat): char
    requires d < 10
  {
    ('0' as int + d) as char
  }

  /** Python's `'%d' % n` for a natural number. */
  function NatToString(n: nat): (s: string)
    ensures |s| > 0 && AllDigits(s)
    decreases n
  {
    if n < 10 then [DigitChar(n)] else NatToString(n / 10) + [DigitChar(n % 10)]
  }

  /** Reading back the decimal text of `n` gives `n`. */
  lemma {:induction false} NatToStringValue(n: nat)
    ensures DigitsValue(NatToString(n)) == n
    decreases n
  {
    var s := NatToString(n);
    if n >= 10 {
      NatToStringValue(n / 10);
      assert s[..|s| - 1] == NatToString(n / 10);
    }
  }

  /** Python 2's `int(s)` on a byte string, which reads it with C's `strtol` rules:
      surrounding whitespace, an optional sign, whitespace again (the digit scan skips
      it too), then one or more digits; anything else raises, modelled as `None`. */
  function IntParse(s: string): Option<int>
  {
    SignedDigits(Strip(s))
  }

  /** The digit scan of `int` on a stripped text. */
  function SignedDigits(u: string): Option<int>
  {
    var sg := SignLen(u);
    var d := u[SkipSpaces(u, sg)..];
    if |d| == 0 || !AllDigits(d) then None
    else if sg == 1 && u[0] == '-' then Some(-(DigitsValue(d) as int))
    else Some(DigitsValue(d))
  }

  /** The position of the first non-blank character at or after `k`, or the end. */
  function SkipSpaces(u: string, k: nat): (r: nat)
    requires k <= |u|
    ensures k <= r <= |u| && (r == |u| || !IsSpace(u[r]))
    ensures forall j :: k <= j < r ==> IsSpace(u[j])
    decreases |u| - k
  {
    if k < |u| && IsSpace(u[k]) then SkipSpaces(u, k + 1) else k
  }

  /** A digit string has no whitespace to strip. */
  lemma StripDigits(s: string)
    requires |s| > 0 && AllDigits(s)
    ensures Strip(s) == s
  {
    assert !IsSpace(s[0]) && !IsSpace(s[|s| - 1]);
    assert [] + s + [] == s;
    TrimPadded([], s, [], Whitespace);
  }

  /** A minus sign before a digit string leaves nothing to strip. */
  lemma StripSigned(d: string)
    requires |d| > 0 && AllDigits(d)
    ensures Strip("-" + d) == "-" + d
  {
    var s := "-" + d;
    assert s[|s| - 1] == d[|d| - 1];
    assert !IsSpace(s[0]) && !IsSpace(s[|s| - 1]);
    assert [] + s + [] == s;
    TrimPadded([], s, [], Whitespace);
  }

  /** `int('%d' % n) == n`. */
  lemma IntParseNatToString(n: nat)
    ensures IntParse(NatToString(n)) == Some(n)
  {
    var s := NatToString(n);
    StripDigits(s);
    assert SignLen(s) == 0;
    assert s[0..] == s;
    NatToStringValue(n);
  }

  /** `int('-%d' % n) == -n`. */
  lemma IntParseNegative(n: nat)
    ensures IntParse("-" + NatToString(n)) == Some(-(n as int))
  {
    var d := NatToString(n);
    var s := "-" + d;
    StripSigned(d);
    assert SignLen(s) == 1;
    assert s[1..] == d;
    NatToStringValue(n);
  }

  /** Whitespace between the sign and the digits is skipped: `int('- 3') == -3` and
      `int('+ 2') == 2`. */
  lemma IntParseSpacedSign(sign: char, pad: string, d: string)
    requires sign == '-' || sign == '+'
    requires AllDrop(pad, Whitespace)
    requires |d| > 0 && AllDigits(d)
    ensures IntParse([sign] + pad + d) == Some(if sign == '-' then -(DigitsValue(d) as int) else DigitsValue(d))
  {
    var s := [sign] + pad + d;
    StripSignedPadded(sign, pad, d);
    assert s[1..1 + |pad|] == pad && s[1 + |pad|..] == d;
    SkipPadded(s, 1, pad, d);
    SignedDigitsAt(s, 1 + |pad|, d);
  }

  /** The digit scan of a signed text whose blanks after the sign end at `k`. */
  lemma SignedDigitsAt(u: string, k: nat, d: string)
    requires |u| > 0 && (u[0] == '-' || u[0] == '+')
    requires 1 <= k <= |u| && SkipSpaces(u, 1) == k && u[k..] == d && |d| > 0 && AllDigits(d)
    ensures SignedDigits(u) == Some(if u[0] == '-' then -(DigitsValue(d) as int) else DigitsValue(d))
  {
    assert SignLen(u) == 1;
  }

  /** Blanks after a sign are skipped up to the first digit. */
  lemma {:induction false} SkipPadded(u: string, k: nat, pad: string, d: string)
    requires k + |pad| <= |u| && u[k..k + |pad|] == pad && AllDrop(pad, Whitespace)
    requires u[k + |pad|..] == d && |d| > 0 && IsDigit(d[0])
    ensures SkipSpaces(u, k) == k + |pad|
    decreases |pad|
  {
    if |pad| > 0 {
      assert u[k] == pad[0];
      assert u[k + 1..k + |pad|] == pad[1..];
      SkipPadded(u, k + 1, pad[1..], d);
    } else {
      assert u[k] == d[0];
    }
  }

  /** A sign followed by whitespace alone raises: `int('- ')`. */
  lemma IntParseBareSign(sign: char, pad: string)
    requires sign == '-' || sign == '+'
    requires AllDrop(pad, Whitespace)
    ensures IntParse([sign] + pad) == None
  {
    assert [] + [sign] + pad == [sign] + pad;
    TrimPadded([], [sign], pad, Whitespace);
    assert Strip([sign] + pad) == [sign];
    assert ([sign])[1..] == [];
  }

  /** A sign, whitespace, then digits leaves nothing to strip. */
  lemma StripSignedPadded(sign: char, pad: string, d: string)
    requires sign == '-' || sign == '+'
    requires |d| > 0 && AllDigits(d)
    ensures Strip([sign] + pad + d) == [sign] + pad + d
  {
    var s := [sign] + pad + d;
    assert s[|s| - 1] == d[|d| - 1];
    assert !IsSpace(s[0]) && !IsSpace(s[|s| - 1]);
    assert [] + s + [] == s;
    TrimPadded([], s, [], Whitespace);
  }

}
