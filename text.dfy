/** String helpers with the semantics of the Python string methods the parsers call:
    `strip`, `startswith`, `replace(old, '')`, `strip(chars)`, `sep.join` and `split`. */
module Text {

  /** The characters Python's `str.strip()` removes from an ASCII line:
      space, tab, line feed, vertical tab, form feed and carriage return. */
  predicate IsSpace(c: char) {
    c == ' ' || ('\t' <= c <= '\r')
  }

  predicate IsQuote(c: char) {
    c == '"'
  }

  /** A set of characters `strip` may be asked to remove. */
  datatype CharSet = Whitespace | Quotes

  predicate Drops(cs: CharSet, c: char) {
    match cs
    case Whitespace => IsSpace(c)
    case Quotes => IsQuote(c)
  }

  predicate StartsWith(s: string, prefix: string) {
    |prefix| <= |s| && s[..|prefix|] == prefix
  }

  /** Drops the leading characters satisfying `drop`. */
  function TrimLeft(s: string, drop: CharSet): (r: string)
    ensures |r| <= |s| && r == s[|s| - |r|..]
    ensures r == [] || !Drops(drop, r[0])
    ensures forall k :: 0 <= k < |s| - |r| ==> Drops(drop, s[k])
    decreases |s|
  {
    if |s| > 0 && Drops(drop, s[0]) then TrimLeft(s[1..], drop) else s
  }

  /** Drops the trailing characters satisfying `drop`. */
  function TrimRight(s: string, drop: CharSet): (r: string)
    ensures |r| <= |s| && r == s[..|r|]
    ensures r == [] || !Drops(drop, r[|r| - 1])
    ensures forall k :: |r| <= k < |s| ==> Drops(drop, s[k])
    decreases |s|
  {
    if |s| > 0 && Drops(drop, s[|s| - 1]) then TrimRight(s[..|s| - 1], drop) else s
  }

  /** Python's `s.strip(chars)` for the character set `drop`. */
  function Trim(s: string, drop: CharSet): (r: string)
    ensures |r| <= |s|
    ensures r == [] || (!Drops(drop, r[0]) && !Drops(drop, r[|r| - 1]))
  {
    TrimRight(TrimLeft(s, drop), drop)
  }

  /** Python's `s.strip()`. */
  function Strip(s: string): string {
    Trim(s, Whitespace)
  }

  predicate AllDrop(s: string, drop: CharSet) {
    forall k :: 0 <= k < |s| ==> Drops(drop, s[k])
  }

  lemma {:induction false} TrimLeftPadded(pad: string, m: string, drop: CharSet)
    requires AllDrop(pad, drop)
    requires m == [] || !Drops(drop, m[0])
    ensures TrimLeft(pad + m, drop) == m
    decreases |pad|
  {
    if pad != [] {
      assert (pad + m)[1..] == pad[1..] + m;
      TrimLeftPadded(pad[1..], m, drop);
    }
  }

  lemma {:induction false} TrimRightPadded(m: string, pad: string, drop: CharSet)
    requires AllDrop(pad, drop)
    requires m == [] || !Drops(drop, m[|m| - 1])
    ensures TrimRight(m + pad, drop) == m
    decreases |pad|
  {
    if pad != [] {
      var s := m + pad;
      assert s[..|s| - 1] == m + pad[..|pad| - 1];
      TrimRightPadded(m, pad[..|pad| - 1], drop);
    }
  }

  /** Stripping undoes padding: a text whose ends are kept, padded on both sides by
      droppable characters, is recovered exactly. */
  lemma TrimPadded(left: string, m: string, right: string, drop: CharSet)
    requires AllDrop(left, drop) && AllDrop(right, drop)
    requires m == [] || (!Drops(drop, m[0]) && !Drops(drop, m[|m| - 1]))
    ensures Trim(left + m + right, drop) == m
  {
    if m == [] {
      assert left + m + right == left + right;
      assert forall k :: 0 <= k < |left + right| ==> Drops(drop, (left + right)[k]);
      assert AllDrop(left + right, drop);
      TrimLeftPadded(left + right, [], drop);
      assert left + right == (left + right) + [];
    } else {
      assert left + m + right == left + (m + right);
      TrimLeftPadded(left, m + right, drop);
      TrimRightPadded(m, right, drop);
    }
  }

  predicate Occurs(s: string, pat: string) {
    exists k :: 0 <= k <= |s| && StartsWith(s[k..], pat)
  }

  /** Python's `s.replace(pat, '')`: removes every non-overlapping occurrence, scanning left to right. */
  function RemoveAll(s: string, pat: string): (r: string)
    requires |pat| > 0
    ensures |r| <= |s|
    decreases |s|
  {
    if |s| == 0 then s
    else if StartsWith(s, pat) then RemoveAll(s[|pat|..], pat)
    else [s[0]] + RemoveAll(s[1..], pat)
  }

  lemma {:induction false} RemoveAbsent(s: string, pat: string)
    requires |pat| > 0
    requires !Occurs(s, pat)
    ensures RemoveAll(s, pat) == s
    decreases |s|
  {
    if |s| > 0 {
      assert s[0..] == s;
      assert !StartsWith(s, pat);
      forall k | 0 <= k <= |s[1..]|
        ensures !StartsWith(s[1..][k..], pat)
      {
        assert s[1..][k..] == s[k + 1..];
      }
      RemoveAbsent(s[1..], pat);
    }
  }

  /** A keyword-tagged field `pat + v` whose value does not contain the keyword
      loses exactly the keyword. */
  lemma RemoveKeyword(pat: string, v: string)
    requires |pat| > 0
    requires !Occurs(v, pat)
    ensures RemoveAll(pat + v, pat) == v
  {
    var s := pat + v;
    assert s[..|pat|] == pat;
    assert s[|pat|..] == v;
    RemoveAbsent(v, pat);
  }

  /** Python's `sep.join(xs)`. */
  function Join(sep: string, xs: seq<string>): (r: string)
    decreases |xs|
  {
    if |xs| == 0 then ""
    else if |xs| == 1 then xs[0]
    else xs[0] + sep + Join(sep, xs[1..])
  }

  /** Index of the first `c` in `s`, or `|s|` when there is none. */
  function IndexOf(s: string, c: char): (k: nat)
    ensures k <= |s|
    ensures k < |s| ==> s[k] == c
    ensures forall j :: 0 <= j < k ==> s[j] != c
    decreases |s|
  {
    if |s| == 0 then 0 else if s[0] == c then 0 else 1 + IndexOf(s[1..], c)
  }

  /** Python's `s.split(c)` for a one-character separator. */
  function Split(s: string, c: char): (r: seq<string>)
    ensures |r| > 0
    decreases |s|
  {
    var k := IndexOf(s, c);
    if k == |s| then [s] else [s[..k]] + Split(s[k + 1..], c)
  }

  /** Splitting on the separator undoes joining, when no piece contains the separator. */
  lemma {:induction false} SplitJoin(xs: seq<string>, c: char)
    requires |xs| > 0
    requires forall j :: 0 <= j < |xs| ==> c !in xs[j]
    ensures Split(Join([c], xs), c) == xs
    decreases |xs|
  {
    var x := xs[0];
    if |xs| == 1 {
      assert IndexOf(x, c) == |x|;
    } else {
      var rest := Join([c], xs[1..]);
      var s := x + [c] + rest;
      assert Join([c], xs) == s;
      assert s[|x|] == c;
      assert forall j :: 0 <= j < |x| ==> s[j] == x[j];
      assert IndexOf(s, c) == |x|;
      assert s[..|x|] == x;
      assert s[|x| + 1..] == rest;
      SplitJoin(xs[1..], c);
      assert [x] + xs[1..] == xs;
    }
  }

  /** A character absent from the separator and from every piece is absent from the join. */
  lemma {:induction false} JoinExcludes(sep: string, xs: seq<string>, c: char)
    requires c !in sep
    requires forall j :: 0 <= j < |xs| ==> c !in xs[j]
    ensures c !in Join(sep, xs)
    decreases |xs|
  {
    if |xs| > 1 {
      JoinExcludes(sep, xs[1..], c);
    }
  }
}
