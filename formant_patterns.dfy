/** The line patterns of the Formant report parser and the forward search over a line
    buffer. Every regex is applied with `re.match`, so it is anchored at the start of the
    (already stripped) line but need not cover the whole line. */
module FormantPatterns {
  import opened Wrappers
  import opened Text
  import opened Numerals

  /** A search pattern. `Prefix` is the plain-string alternative `_find_line` also accepts
      (a `startswith` test); the other three are the compiled regexes:
      `Field(k)`        is `k\s*=\s*([0-9]+(?:\.[0-9]+)?(?:e[+-]?[0-9]+)?)`,
      `Indexed(k)`      is `k\s*\[([0-9]+)\]:`,
      `ArrayHeader(k)`  is `k\s*\[\s*\]:`. */
  datatype Pattern = Prefix(text: string) | Field(keyword: string) | Indexed(name: string) | ArrayHeader(name: string)
  {
    function Name(): string {
      match this
      case Prefix(x) => x
      case Field(k) => k
      case Indexed(k) => k
      case ArrayHeader(k) => k
    }

    predicate IsRegex() {
      !Prefix?
    }
  }

  /** A successful match; `group` is what `group(1)` returns, absent for a pattern
      without a capturing group. */
  datatype MatchResult = MatchResult(group: Option<string>)

  /** One element of a compiled pattern: a literal text, `\s*`, the numeral group
      `([0-9]+(?:\.[0-9]+)?(?:e[+-]?[0-9]+)?)` or the digit group `([0-9]+)`. Every
      `\s*` and every group is followed by a character it cannot take (or by nothing),
      so taking the longest run at each element, as the regex engine's first try does,
      is the only way the rest can match: no backtracking is needed. */
  datatype Piece = Text(s: string) | Blank | Number | Digits

  /** The pieces of each pattern. */
  function Pieces(p: Pattern): seq<Piece> {
    match p
    case Prefix(x) => [Text(x)]
    case Field(k) => [Text(k), Blank, Text("="), Blank, Number]
    case Indexed(k) => [Text(k), Blank, Text("["), Digits, Text("]:")]
    case ArrayHeader(k) => [Text(k), Blank, Text("["), Blank, Text("]:")]
  }

  /** The end of the run of whitespace at `pos`. */
  function SpaceEnd(s: string, pos: nat): (e: nat)
    requires pos <= |s|
    ensures pos <= e <= |s|
    decreases |s| - pos
  {
    if pos < |s| && IsSpace(s[pos]) then SpaceEnd(s, pos + 1) else pos
  }

  /** A match that took group `g` before the rest of the pieces matched as `rest`. */
  function Captured(g: string, rest: Option<MatchResult>): Option<MatchResult> {
    if rest.None? then None else Some(MatchResult(Some(g)))
  }

  /** Matching the pieces `ps[j..]` against `line` from position `pos`. */
  function Run(ps: seq<Piece>, j: nat, line: string, pos: nat): Option<MatchResult>
    requires j <= |ps| && pos <= |line|
    decreases |ps| - j, |line| - pos
  {
    if j == |ps| then Some(MatchResult(None))
    else
      var q := ps[j];
      if q.Text? then
        if pos + |q.s| <= |line| && line[pos..pos + |q.s|] == q.s then Run(ps, j + 1, line, pos + |q.s|) else None
      else if q.Blank? then Run(ps, j + 1, line, SpaceEnd(line, pos))
      else if q.Number? then
        var e := NumeralEnd(line, pos);
        if e == pos then None else Captured(line[pos..e], Run(ps, j + 1, line, e))
      else
        var e := DigitEnd(line, pos);
        if e == pos then None else Captured(line[pos..e], Run(ps, j + 1, line, e))
  }

  /** `pattern.match(line)` (or, for `Prefix`, `line.startswith(text)`). */
  function Match(p: Pattern, line: string): Option<MatchResult> {
    Run(Pieces(p), 0, line, 0)
  }

  predicate Matches(p: Pattern, line: string) {
    Match(p, line).Some?
  }

  /** A match starts with the pattern's name; the rest of the line is matched by the
      pieces after it. */
  lemma NameMatched(p: Pattern, line: string)
    requires Matches(p, line)
    ensures StartsWith(line, p.Name())
    ensures Match(p, line) == Run(Pieces(p), 1, line, |p.Name()|)
  {
    var ps := Pieces(p);
    var k := p.Name();
    assert ps[0] == Text(k) && |ps| > 0;
    assert Run(ps, 0, line, 0).Some?;
    assert |k| <= |line| && line[0..|k|] == k;
  }

  /** `\s*` takes the whole run of whitespace. */
  lemma BlankStep(ps: seq<Piece>, j: nat, line: string, pos: nat)
    requires j < |ps| && ps[j] == Blank && pos <= |line|
    ensures Run(ps, j, line, pos) == Run(ps, j + 1, line, SpaceEnd(line, pos))
  {
  }

  /** A literal text that matched is on the line, and the rest goes on after it. */
  lemma TextStep(ps: seq<Piece>, j: nat, line: string, pos: nat)
    requires j < |ps| && ps[j].Text? && pos <= |line| && Run(ps, j, line, pos).Some?
    ensures pos + |ps[j].s| <= |line| && line[pos..pos + |ps[j].s|] == ps[j].s
    ensures Run(ps, j, line, pos) == Run(ps, j + 1, line, pos + |ps[j].s|)
  {
  }

  /** A match that goes on with the numeral group captures a whole numeral. */
  lemma NumberCaptured(ps: seq<Piece>, j: nat, line: string, pos: nat)
    requires j < |ps| && ps[j] == Number && pos <= |line| && Run(ps, j, line, pos).Some?
    ensures Run(ps, j, line, pos).value.group.Some? && IsNumeral(Run(ps, j, line, pos).value.group.value)
  {
    var u := line[pos..];
    NumeralEndLen(line, pos);
    var len := NumeralLen(u);
    NumeralLenLongest(u);
    assert u[..len] == line[pos..pos + len];
  }

  lemma FieldFacts(k: string, line: string)
    requires Matches(Field(k), line)
    ensures Match(Field(k), line).value.group.Some? && IsNumeral(Match(Field(k), line).value.group.value)
  {
    NameMatched(Field(k), line);
    var ps := Pieces(Field(k));
    BlankStep(ps, 1, line, |k|);
    var a := SpaceEnd(line, |k|);
    TextStep(ps, 2, line, a);
    BlankStep(ps, 3, line, a + 1);
    NumberCaptured(ps, 4, line, SpaceEnd(line, a + 1));
  }

  lemma IndexedFacts(k: string, line: string)
    requires Matches(Indexed(k), line)
    ensures var g := Match(Indexed(k), line).value.group; g.Some? && |g.value| > 0 && AllDigits(g.value)
  {
    NameMatched(Indexed(k), line);
    var ps := Pieces(Indexed(k));
    BlankStep(ps, 1, line, |k|);
    var a := SpaceEnd(line, |k|);
    TextStep(ps, 2, line, a);
    DigitEndDigits(line, a + 1);
  }

  lemma ArrayHeaderFacts(k: string, line: string)
    requires Matches(ArrayHeader(k), line)
    ensures Match(ArrayHeader(k), line).value.group.None?
  {
    NameMatched(ArrayHeader(k), line);
    var ps := Pieces(ArrayHeader(k));
    BlankStep(ps, 1, line, |k|);
    var a := SpaceEnd(line, |k|);
    TextStep(ps, 2, line, a);
    BlankStep(ps, 3, line, a + 1);
    TextStep(ps, 4, line, SpaceEnd(line, a + 1));
  }

  lemma PrefixFacts(x: string, line: string)
    requires Matches(Prefix(x), line)
    ensures Match(Prefix(x), line).value.group.None?
  {
    NameMatched(Prefix(x), line);
  }

  /** What a match guarantees: the line starts with the pattern's name, a field captures
      a whole numeral of the grammar (the longest numeral prefix of the value text), an
      indexed marker captures a non-empty digit string, and only regexes have groups. */
  lemma MatchFacts(p: Pattern, line: string)
    requires Matches(p, line)
    ensures StartsWith(line, p.Name())
    ensures p.Field? ==> Match(p, line).value.group.Some? && IsNumeral(Match(p, line).value.group.value)
    ensures p.Indexed? ==> Match(p, line).value.group.Some? && |Match(p, line).value.group.value| > 0
                           && AllDigits(Match(p, line).value.group.value)
    ensures p.Prefix? || p.ArrayHeader? ==> Match(p, line).value.group.None?
  {
    NameMatched(p, line);
    match p
    case Field(k) => FieldFacts(k, line);
    case Indexed(k) => IndexedFacts(k, line);
    case ArrayHeader(k) => ArrayHeaderFacts(k, line);
    case Prefix(x) => PrefixFacts(x, line);
  }

  /** Two patterns whose names differ at a position both names have never match the same line. */
  lemma Exclusive(p: Pattern, q: Pattern, line: string, j: nat)
    requires j < |p.Name()| && j < |q.Name()| && p.Name()[j] != q.Name()[j]
    ensures !(Matches(p, line) && Matches(q, line))
  {
    if Matches(p, line) && Matches(q, line) {
      MatchFacts(p, line);
      MatchFacts(q, line);
    }
  }

  /** The first index `k` with `start <= k < |f|` whose line matches `p`: the loop of `_find_line`. */
  function FirstMatch(f: seq<string>, p: Pattern, start: nat): (r: Option<nat>)
    ensures r.Some? ==> start <= r.value < |f| && Matches(p, f[r.value])
    ensures r.Some? ==> forall k {:trigger Matches(p, f[k])} :: start <= k < r.value ==> !Matches(p, f[k])
    ensures r.None? ==> forall k {:trigger Matches(p, f[k])} :: start <= k < |f| ==> !Matches(p, f[k])
    decreases |f| - start
  {
    if start >= |f| then None
    else if Matches(p, f[start]) then Some(start)
    else FirstMatch(f, p, start + 1)
  }

  /** The number in a `k [digits]:` marker. */
  function MarkerNumber(p: Pattern, line: string): nat
    requires p.Indexed? && Matches(p, line)
  {
    MatchFacts(p, line);
    DigitsValue(Match(p, line).value.group.value)
  }

  /** The value of the numeral in a `k = numeral` field. */
  function FieldText(p: Pattern, line: string): string
    requires p.Field? && Matches(p, line)
  {
    MatchFacts(p, line);
    Match(p, line).value.group.value
  }

  function FieldValue(p: Pattern, line: string): real
    requires p.Field? && Matches(p, line)
  {
    NumeralValue(FieldText(p, line))
  }
}
