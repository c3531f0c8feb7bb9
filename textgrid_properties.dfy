/** What a TextGrid parse guarantees, stated on the reference reading `ParseGrid` that
    `TextGrid.Parse` is proved to follow. */
module TextGridProperties {
  import opened Wrappers
  import opened Text
  import opened Numerals
  import opened TextGridFormat

  // ---- The interval header pattern ----

  /** The line is `k` spaces, `intervals [`, `d` digits and `]:`, then anything. */
  predicate HeaderAt(l: string, k: nat, d: nat) {
    var w := k + |IntervalsWord|;
    0 < k && 0 < d && w + d + |HeaderClose| <= |l| &&
    (forall i :: 0 <= i < k ==> l[i] == ' ') &&
    l[k..w] == IntervalsWord && AllDigits(l[w..w + d]) && l[w + d..w + d + |HeaderClose|] == HeaderClose
  }

  lemma {:induction false} SpaceRunSpan(s: string)
    ensures forall i :: 0 <= i < SpaceRun(s) ==> s[i] == ' '
    ensures SpaceRun(s) < |s| ==> s[SpaceRun(s)] != ' '
    decreases |s|
  {
    if |s| > 0 && s[0] == ' ' {
      SpaceRunSpan(s[1..]);
      assert forall i :: 0 < i < SpaceRun(s) ==> s[i] == s[1..][i - 1];
    }
  }

  lemma {:induction false} SpaceRunExact(s: string, k: nat)
    requires k <= |s| && (forall i :: 0 <= i < k ==> s[i] == ' ') && (k < |s| ==> s[k] != ' ')
    ensures SpaceRun(s) == k
    decreases k
  {
    if k > 0 {
      SpaceRunExact(s[1..], k - 1);
    }
  }

  lemma {:induction false} DigitRunExact(s: string, d: nat)
    requires d <= |s| && AllDigits(s[..d]) && (d < |s| ==> !IsDigit(s[d]))
    ensures DigitRun(s) == d
    decreases d
  {
    if d > 0 {
      assert IsDigit(s[..d][0]);
      assert s[1..][..d - 1] == s[..d][1..];
      DigitRunExact(s[1..], d - 1);
    }
  }

  /** `reIntervals.match` succeeds on a line exactly when the line has the shape of
      the pattern for some count of spaces and of digits: taking every space and every
      digit greedily never has to give any back. */
  lemma IntervalHeaderMeaning(l: string)
    ensures IntervalHeader(l) <==> exists k: nat, d: nat :: HeaderAt(l, k, d)
  {
    if IntervalHeader(l) {
      var k := SpaceRun(l);
      var ds := l[k..];
      var d := DigitRun(ds[|IntervalsWord|..]);
      HeaderFromMatch(l, k, d);
    }
    if exists k: nat, d: nat :: HeaderAt(l, k, d) {
      var k: nat, d: nat :| HeaderAt(l, k, d);
      MatchFromHeader(l, k, d);
    }
  }

  lemma HeaderFromMatch(l: string, k: nat, d: nat)
    requires IntervalHeader(l) && k == SpaceRun(l) && d == DigitRun(l[k..][|IntervalsWord|..])
    ensures HeaderAt(l, k, d)
  {
    var w := k + |IntervalsWord|;
    var c := |HeaderClose|;
    var ds := l[k..];
    var rest := ds[|IntervalsWord|..];
    assert 0 < k && StartsWith(ds, IntervalsWord) && 0 < d && StartsWith(rest[d..], HeaderClose);
    assert forall i :: 0 <= i < k ==> l[i] == ' ' by {
      SpaceRunSpan(l);
    }
    assert l[k..w] == IntervalsWord by {
      TakeOfDrop(l, k, |IntervalsWord|);
    }
    DropOfDrop(l, k, |IntervalsWord|);
    assert AllDigits(l[w..w + d]) by {
      DigitRunSpan(rest);
      TakeOfDrop(l, w, d);
    }
    assert l[w + d..w + d + c] == HeaderClose by {
      DropOfDrop(l, w, d);
      TakeOfDrop(l, w + d, c);
    }
  }

  lemma TakeOfDrop(s: string, a: nat, c: nat)
    requires a + c <= |s|
    ensures s[a..][..c] == s[a..a + c]
  {
  }

  lemma DropOfDrop(s: string, a: nat, b: nat)
    requires a + b <= |s|
    ensures s[a..][b..] == s[a + b..]
  {
  }

  lemma MatchFromHeader(l: string, k: nat, d: nat)
    requires HeaderAt(l, k, d)
    ensures IntervalHeader(l)
  {
    var w := k + |IntervalsWord|;
    assert l[k] == l[k..w][0] == 'i';
    SpaceRunExact(l, k);
    var ds := l[k..];
    var rest := ds[|IntervalsWord|..];
    assert ds[..|IntervalsWord|] == l[k..w];
    assert rest == l[w..];
    assert rest[..d] == l[w..w + d];
    assert rest[d] == l[w + d..w + d + |HeaderClose|][0] == ']';
    DigitRunExact(rest, d);
    assert rest[d..][..|HeaderClose|] == l[w + d..w + d + |HeaderClose|];
  }

  // ---- Item markers and tier ranges ----

  /** Where the search for marker `m` of a chain starting at `from` begins. */
  function SearchFrom(from: nat, idx: seq<nat>, m: nat): nat
    requires m <= |idx|
  {
    if m == 0 then from else idx[m - 1] + 1
  }

  /** `idx` are the lines of the markers of tiers `j`, `j + 1`, ..., each the first
      line starting with its marker at or after the line following the previous one. */
  predicate ItemChain(content: seq<string>, from: nat, j: nat, idx: seq<nat>) {
    forall m :: 0 <= m < |idx| ==>
      FirstWithPrefix(content, ItemMarker(j + m), SearchFrom(from, idx, m), |content|) == Some(idx[m])
  }

  function Width(size: int): nat {
    if size < 0 then 0 else size
  }

  /** The marker search fails only by naming a tier that is still to be found. */
  lemma {:induction false} ItemLinesErrors(content: seq<string>, from: nat, j: nat, size: int)
    ensures var r := ItemLines(content, from, j, size);
      r.Err? ==> r.error.MissingItem? && j < r.error.item <= size
    decreases size - j
  {
    if j < size {
      var k := FirstWithPrefix(content, ItemMarker(j), from, |content|);
      if k.Some? {
        ItemLinesErrors(content, k.value + 1, j + 1, size);
      }
    }
  }

  /** A marker search that succeeds finds one line per remaining tier, and line `m` is
      the first match of marker `j + m` after the line of marker `j + m - 1`. */
  lemma {:induction false} ItemLinesAt(content: seq<string>, from: nat, j: nat, size: int, m: nat)
    requires ItemLines(content, from, j, size).Ok?
    ensures var idx := ItemLines(content, from, j, size).value;
      |idx| == Width(size - j) &&
      (m < |idx| ==> FirstWithPrefix(content, ItemMarker(j + m), SearchFrom(from, idx, m), |content|) == Some(idx[m]))
    decreases size - j
  {
    var idx := ItemLines(content, from, j, size).value;
    if j < size {
      ItemLinesHead(content, from, j, size);
      var rest := idx[1..];
      ItemLinesAt(content, idx[0] + 1, j + 1, size, if m > 0 then m - 1 else 0);
      if 0 < m < |idx| {
        assert j + m == (j + 1) + (m - 1);
        assert rest[m - 1] == idx[m];
        assert m > 1 ==> rest[m - 2] == idx[m - 1];
        assert SearchFrom(from, idx, m) == SearchFrom(idx[0] + 1, rest, m - 1);
      }
    }
  }

  /** The first step of a marker search that succeeds. */
  lemma ItemLinesHead(content: seq<string>, from: nat, j: nat, size: int)
    requires ItemLines(content, from, j, size).Ok? && j < size
    ensures var idx := ItemLines(content, from, j, size).value;
      |idx| > 0 && FirstWithPrefix(content, ItemMarker(j), from, |content|) == Some(idx[0]) &&
      ItemLines(content, idx[0] + 1, j + 1, size) == Ok(idx[1..])
  {
  }

  /** The search for all remaining markers either names a missing tier or returns a
      chain with one line per tier. */
  lemma ItemLinesSound(content: seq<string>, from: nat, j: nat, size: int)
    ensures var r := ItemLines(content, from, j, size);
      r.Ok? ==> |r.value| == Width(size - j) && ItemChain(content, from, j, r.value)
    ensures var r := ItemLines(content, from, j, size);
      r.Err? ==> r.error.MissingItem? && j < r.error.item <= size
  {
    ItemLinesErrors(content, from, j, size);
    var r := ItemLines(content, from, j, size);
    if r.Ok? {
      ItemLinesAt(content, from, j, size, 0);
      forall m | 0 <= m < |r.value|
        ensures FirstWithPrefix(content, ItemMarker(j + m), SearchFrom(from, r.value, m), |content|) == Some(r.value[m])
      {
        ItemLinesAt(content, from, j, size, m);
      }
    }
  }

  /** In a chain the marker lines strictly increase, are lines of the file that start
      with their markers, and the first is at or after `from`. */
  lemma ItemChainIncreasing(content: seq<string>, from: nat, j: nat, idx: seq<nat>)
    requires ItemChain(content, from, j, idx)
    ensures forall m :: 0 <= m < |idx| ==> idx[m] < |content| && StartsWith(content[idx[m]], ItemMarker(j + m))
    ensures Increasing(idx) && (|idx| > 0 ==> from <= idx[0])
  {
    forall m | 0 <= m < |idx|
      ensures idx[m] < |content| && StartsWith(content[idx[m]], ItemMarker(j + m))
      ensures m > 0 ==> idx[m - 1] < idx[m]
      ensures m == 0 ==> from <= idx[m]
    {
      assert FirstWithPrefix(content, ItemMarker(j + m), SearchFrom(from, idx, m), |content|) == Some(idx[m]);
    }
  }

  predicate Increasing(idx: seq<nat>) {
    forall m :: 0 < m < |idx| ==> idx[m - 1] < idx[m]
  }

  /** The search fails at the last tier exactly when the search for the tiers before it
      succeeds and the last marker does not occur after the last marker found. */
  lemma {:induction false} ItemLinesLastMissing(content: seq<string>, from: nat, j: nat, size: int)
    requires j < size
    ensures var pre := ItemLines(content, from, j, size - 1);
      ItemLines(content, from, j, size) == Err(MissingItem(size)) <==>
        pre.Ok? && |pre.value| == size - 1 - j &&
        FirstWithPrefix(content, ItemMarker(size - 1), SearchFrom(from, pre.value, |pre.value|), |content|).None?
    decreases size - j
  {
    var k := FirstWithPrefix(content, ItemMarker(j), from, |content|);
    if j + 1 == size {
      LastMissingAtLast(content, from, j, size);
    } else if k.None? {
      LastMissingEarly(content, from, j, size);
    } else {
      ItemLinesLastMissing(content, k.value + 1, j + 1, size);
      LastMissingStep(content, from, j, size, k.value);
    }
  }

  /** At the last tier the search before it is empty, so it fails exactly when the last
      marker is absent. */
  lemma LastMissingAtLast(content: seq<string>, from: nat, j: nat, size: int)
    requires j + 1 == size
    ensures var pre := ItemLines(content, from, j, size - 1);
      ItemLines(content, from, j, size) == Err(MissingItem(size)) <==>
        pre.Ok? && |pre.value| == size - 1 - j &&
        FirstWithPrefix(content, ItemMarker(size - 1), SearchFrom(from, pre.value, |pre.value|), |content|).None?
  {
    var k := FirstWithPrefix(content, ItemMarker(j), from, |content|);
    ItemLinesUnfold(content, from, j, size);
    assert ItemLines(content, from, j, size - 1) == Ok([]);
    if k.Some? {
      assert ItemLines(content, k.value + 1, j + 1, size) == Ok([]);
    }
  }

  /** A marker missing before the last tier fails both searches with that marker. */
  lemma LastMissingEarly(content: seq<string>, from: nat, j: nat, size: int)
    requires j + 1 < size && FirstWithPrefix(content, ItemMarker(j), from, |content|).None?
    ensures ItemLines(content, from, j, size) == Err(MissingItem(j + 1))
    ensures ItemLines(content, from, j, size - 1) == Err(MissingItem(j + 1))
  {
    ItemLinesUnfold(content, from, j, size);
    ItemLinesUnfold(content, from, j, size - 1);
  }

  /** A found marker passes the question on to the tiers after it. */
  lemma LastMissingStep(content: seq<string>, from: nat, j: nat, size: int, k: nat)
    requires j + 1 < size && FirstWithPrefix(content, ItemMarker(j), from, |content|) == Some(k)
    requires var pre := ItemLines(content, k + 1, j + 1, size - 1);
      ItemLines(content, k + 1, j + 1, size) == Err(MissingItem(size)) <==>
        pre.Ok? && |pre.value| == size - 1 - (j + 1) &&
        FirstWithPrefix(content, ItemMarker(size - 1), SearchFrom(k + 1, pre.value, |pre.value|), |content|).None?
    ensures var pre := ItemLines(content, from, j, size - 1);
      ItemLines(content, from, j, size) == Err(MissingItem(size)) <==>
        pre.Ok? && |pre.value| == size - 1 - j &&
        FirstWithPrefix(content, ItemMarker(size - 1), SearchFrom(from, pre.value, |pre.value|), |content|).None?
  {
    ItemLinesAtMarker(content, from, j, size, k);
    ItemLinesAtMarker(content, from, j, size - 1, k);
    var rest := ItemLines(content, k + 1, j + 1, size - 1);
    if rest.Ok? {
      var pre := [k] + rest.value;
      assert ItemLines(content, from, j, size - 1) == Ok(pre);
      assert SearchFrom(from, pre, |pre|) == SearchFrom(k + 1, rest.value, |rest.value|);
    }
  }

  /** One step of the marker search. */
  lemma ItemLinesUnfold(content: seq<string>, from: nat, j: nat, size: int)
    requires j < size
    ensures ItemLines(content, from, j, size) ==
      var k := FirstWithPrefix(content, ItemMarker(j), from, |content|);
      if k.None? then Err(MissingItem(j + 1)) else Prepend1(k.value, ItemLines(content, k.value + 1, j + 1, size))
  {
  }

  /** One step of the marker search at a marker found on line `k`. */
  lemma ItemLinesAtMarker(content: seq<string>, from: nat, j: nat, size: int, k: nat)
    requires j < size && FirstWithPrefix(content, ItemMarker(j), from, |content|) == Some(k)
    ensures ItemLines(content, from, j, size) == Prepend1(k, ItemLines(content, k + 1, j + 1, size))
  {
    ItemLinesUnfold(content, from, j, size);
  }

  /** A chain of markers for the tiers `j` up to `size` grows by the marker of tier `size`
      when it is found after the last one. */
  lemma {:induction false} ItemLinesExtend(content: seq<string>, from: nat, j: nat, size: nat, acc: seq<nat>, k: nat)
    requires j <= size && ItemLines(content, from, j, size) == Ok(acc) && |acc| == size - j
    requires FirstWithPrefix(content, ItemMarker(size), SearchFrom(from, acc, |acc|), |content|) == Some(k)
    ensures ItemLines(content, from, j, size + 1) == Ok(acc + [k])
    decreases size - j
  {
    if j < size {
      var k0 := FirstWithPrefix(content, ItemMarker(j), from, |content|);
      var rest := ItemLines(content, k0.value + 1, j + 1, size);
      assert acc == [k0.value] + rest.value;
      assert SearchFrom(from, acc, |acc|) == SearchFrom(k0.value + 1, rest.value, |rest.value|);
      ItemLinesExtend(content, k0.value + 1, j + 1, size, rest.value, k);
      assert acc + [k] == [k0.value] + (rest.value + [k]);
      assert ItemLines(content, from, j, size + 1) == Prepend1(k0.value, ItemLines(content, k0.value + 1, j + 1, size + 1));
    } else {
      assert acc == [] && SearchFrom(from, acc, 0) == from;
      assert [k] + [] == [k] && acc + [k] == [k];
      assert ItemLines(content, k + 1, j + 1, size + 1) == Ok([]);
      assert ItemLines(content, from, j, size + 1) == Prepend1(k, Ok([]));
    }
  }

  function Prepend1(k: nat, r: Result<seq<nat>, GridError>): Result<seq<nat>, GridError> {
    if r.Err? then r else Ok([k] + r.value)
  }

  /** The ranges built up to a missing last marker are those of the complete reading for
      every tier but the last one built, which has no end. */
  lemma OpenRangesAgree(idx: seq<nat>, n: nat)
    requires |idx| > 0
    ensures OpenRanges(idx) == Ranges(idx, n)[..|idx| - 1] + [OpenRange(idx[|idx| - 1] + 1)]
  {
  }

  /** The closed ranges `r` start on the lines after the markers `idx` and cover the
      file from the first of them to line `n`: each range ends where the next one's
      marker is, and the last ends at `n`. */
  predicate Tiling(r: seq<Range>, idx: seq<nat>, n: nat) {
    |r| == |idx| && AllClosed(r) &&
    (forall m :: 0 <= m < |r| ==> r[m].lo == idx[m] + 1 && r[m].lo <= r[m].hi <= n) &&
    (forall m :: 0 < m < |r| ==> r[m - 1].hi + 1 == r[m].lo) &&
    (|r| > 0 ==> r[|r| - 1].hi == n)
  }

  /** The tier ranges follow one another: each starts on the line after its marker and
      ends at the next marker, which is the line just before the next range, and the
      last ends at the end of the file. */
  lemma RangesFollow(idx: seq<nat>, n: nat)
    requires Increasing(idx) && forall m :: 0 <= m < |idx| ==> idx[m] < n
    ensures Tiling(Ranges(idx, n), idx, n)
  {
    var r := Ranges(idx, n);
    forall m | 0 <= m < |r|
      ensures r[m].lo == idx[m] + 1 && r[m].lo <= r[m].hi <= n
    {
      if m + 1 < |idx| {
        assert r[m] == Range(idx[m] + 1, idx[m + 1]) && idx[m] < idx[m + 1];
      } else {
        assert r[m] == Range(idx[m] + 1, n);
      }
    }
    forall m | 0 < m < |r|
      ensures r[m - 1].hi + 1 == r[m].lo
    {
      assert r[m - 1] == Range(idx[m - 1] + 1, idx[m]) && r[m].lo == idx[m] + 1;
    }
  }

  // ---- One tier ----

  /** Line `k` is a header found by the scan or one of the three field lines after it. */
  predicate Covered(headers: seq<nat>, k: nat) {
    exists m :: 0 <= m < |headers| && headers[m] <= k < headers[m] + 4
  }

  /** What each of the header lines `hs` reads to. */
  function Reads(content: seq<string>, hs: seq<nat>): (r: seq<Result<Interval, GridError>>)
    ensures |r| == |hs|
  {
    seq(|hs|, m requires 0 <= m < |hs| => ReadInterval(content, hs[m]))
  }

  /** The values of `rs`, in order, or `None` if one of them is an error. */
  function AllOk<T, E>(rs: seq<Result<T, E>>): Option<seq<T>>
    decreases |rs|
  {
    if rs == [] then Some([])
    else
      var rest := AllOk(rs[1..]);
      if rs[0].Err? || rest.None? then None else Some([rs[0].value] + rest.value)
  }

  /** Header line `h` lies in `[lo, hi)` and matches the pattern. */
  predicate HeaderIn(content: seq<string>, lo: nat, hi: nat, h: nat) {
    lo <= h < hi && h < |content| && IntervalHeader(content[h])
  }

  predicate HeadersIn(content: seq<string>, lo: nat, hi: nat, hs: seq<nat>) {
    (forall m :: 0 <= m < |hs| ==> HeaderIn(content, lo, hi, hs[m])) &&
    (forall m :: 0 < m < |hs| ==> hs[m - 1] + 4 <= hs[m])
  }

  predicate TierSound(content: seq<string>, lo: nat, hi: nat, r: TierScan) {
    AllOk(Reads(content, r.headers)) == Some(r.intervals) && HeadersIn(content, lo, hi, r.headers)
  }

  /** The intervals of a scan are what its header lines read to, and the headers lie in
      the range, match the pattern and are at least four lines apart. */
  lemma {:induction false} ScanTierSound(content: seq<string>, lo: nat, hi: nat)
    ensures TierSound(content, lo, hi, ScanTier(content, lo, hi))
    decreases hi - lo
  {
    if hi <= lo {
      ScanTierAtEnd(content, lo, hi);
    } else if |content| <= lo {
      ScanTierPastEnd(content, lo, hi);
    } else if !IntervalHeader(content[lo]) {
      ScanTierSkip(content, lo, hi);
      ScanTierSound(content, lo + 1, hi);
      HeadersWiden(content, lo + 1, lo, hi, ScanTier(content, lo + 1, hi).headers);
    } else if ReadInterval(content, lo).Err? {
      ScanTierFails(content, lo, hi);
    } else {
      ScanTierHeader(content, lo, hi);
      ScanTierSound(content, lo + 4, hi);
      SoundCons(content, lo, hi, ReadInterval(content, lo).value, ScanTier(content, lo + 4, hi));
    }
  }

  /** A header whose fields read, in front of a sound scan of the lines after them. */
  lemma SoundCons(content: seq<string>, lo: nat, hi: nat, iv: Interval, rest: TierScan)
    requires lo < hi && lo < |content| && IntervalHeader(content[lo]) && ReadInterval(content, lo) == Ok(iv)
    requires TierSound(content, lo + 4, hi, rest)
    ensures TierSound(content, lo, hi, TierScan([iv] + rest.intervals, [lo] + rest.headers, rest.error))
  {
    HeadersCons(content, lo, hi, rest.headers);
    ReadsCons(content, lo, rest.headers);
    AllOkCons(iv, Reads(content, rest.headers));
  }

  lemma ReadsCons(content: seq<string>, h: nat, hs: seq<nat>)
    ensures Reads(content, [h] + hs) == [ReadInterval(content, h)] + Reads(content, hs)
  {
    assert Reads(content, [h] + hs)[1..] == Reads(content, hs);
  }

  lemma AllOkCons<T, E>(x: T, rs: seq<Result<T, E>>)
    requires AllOk(rs).Some?
    ensures AllOk([Ok(x)] + rs) == Some([x] + AllOk(rs).value)
  {
    assert ([Ok(x)] + rs)[1..] == rs;
  }

  lemma HeadersWiden(content: seq<string>, lo: nat, lo': nat, hi: nat, hs: seq<nat>)
    requires HeadersIn(content, lo, hi, hs) && lo' <= lo
    ensures HeadersIn(content, lo', hi, hs)
  {
    forall m | 0 <= m < |hs|
      ensures HeaderIn(content, lo', hi, hs[m])
    {
      assert HeaderIn(content, lo, hi, hs[m]);
    }
  }

  lemma HeadersCons(content: seq<string>, lo: nat, hi: nat, hs: seq<nat>)
    requires HeaderIn(content, lo, hi, lo) && HeadersIn(content, lo + 4, hi, hs)
    ensures HeadersIn(content, lo, hi, [lo] + hs)
  {
    var r := [lo] + hs;
    forall m | 0 <= m < |r|
      ensures HeaderIn(content, lo, hi, r[m])
    {
      if m > 0 {
        assert HeaderIn(content, lo + 4, hi, hs[m - 1]);
      }
    }
    forall m | 0 < m < |r|
      ensures r[m - 1] + 4 <= r[m]
    {
      if m > 1 {
        assert hs[m - 2] + 4 <= hs[m - 1];
      } else {
        assert HeaderIn(content, lo + 4, hi, hs[0]);
      }
    }
  }

  /** `AllOk` read position by position. */
  lemma {:induction false} AllOkAt<T, E>(rs: seq<Result<T, E>>, vs: seq<T>, m: nat)
    requires AllOk(rs) == Some(vs) && m < |rs|
    ensures |vs| == |rs| && rs[m] == Ok(vs[m])
    decreases |rs|
  {
    AllOkLength(rs[1..]);
    if m > 0 {
      AllOkAt(rs[1..], AllOk(rs[1..]).value, m - 1);
    }
  }

  lemma {:induction false} AllOkLength<T, E>(rs: seq<Result<T, E>>)
    ensures AllOk(rs).Some? ==> |AllOk(rs).value| == |rs|
    decreases |rs|
  {
    if rs != [] {
      AllOkLength(rs[1..]);
    }
  }

  /** Interval `m` of a tier comes from header line `m` of the scan: a line of the range
      that matches the pattern, and whose three field lines read as that interval. The
      headers come in order at least four lines apart, so no field line is ever read as
      a header. */
  lemma TierInterval(content: seq<string>, lo: nat, hi: nat, m: nat)
    requires m < |ScanTier(content, lo, hi).headers|
    ensures var r := ScanTier(content, lo, hi);
      |r.intervals| == |r.headers| &&
      lo <= r.headers[m] < hi && r.headers[m] < |content| && IntervalHeader(content[r.headers[m]]) &&
      ReadInterval(content, r.headers[m]) == Ok(r.intervals[m]) &&
      (m > 0 ==> r.headers[m - 1] + 4 <= r.headers[m])
  {
    var r := ScanTier(content, lo, hi);
    ScanTierSound(content, lo, hi);
    assert HeaderIn(content, lo, hi, r.headers[m]);
    AllOkAt(Reads(content, r.headers), r.intervals, m);
  }

  /** Every line of `[lo, hi)` that matches the pattern is one of the headers `hs`
      or a field line of one. */
  predicate CompleteIn(content: seq<string>, lo: nat, hi: nat, hs: seq<nat>) {
    forall k :: lo <= k < hi && k < |content| && IntervalHeader(content[k]) ==> Covered(hs, k)
  }

  /** A scan that ends without error has read every header line of its range: each line
      that matches the pattern is a header it found or a field line of one. */
  lemma {:induction false} ScanTierComplete(content: seq<string>, lo: nat, hi: nat)
    ensures ScanTier(content, lo, hi).error.None? ==> CompleteIn(content, lo, hi, ScanTier(content, lo, hi).headers)
    decreases hi - lo
  {
    if hi <= lo {
      ScanTierAtEnd(content, lo, hi);
    } else if |content| <= lo {
      ScanTierPastEnd(content, lo, hi);
    } else if !IntervalHeader(content[lo]) {
      ScanTierSkip(content, lo, hi);
      ScanTierComplete(content, lo + 1, hi);
      if ScanTier(content, lo + 1, hi).error.None? {
        CompleteSkip(content, lo, hi, ScanTier(content, lo + 1, hi).headers);
      }
    } else if ReadInterval(content, lo).Err? {
      ScanTierFails(content, lo, hi);
    } else {
      ScanTierHeader(content, lo, hi);
      ScanTierComplete(content, lo + 4, hi);
      if ScanTier(content, lo + 4, hi).error.None? {
        CompleteCons(content, lo, hi, ScanTier(content, lo + 4, hi).headers);
      }
    }
  }

  lemma CompleteCons(content: seq<string>, lo: nat, hi: nat, hs: seq<nat>)
    requires CompleteIn(content, lo + 4, hi, hs)
    ensures CompleteIn(content, lo, hi, [lo] + hs)
  {
    var r := [lo] + hs;
    forall k | lo <= k < hi && k < |content| && IntervalHeader(content[k])
      ensures Covered(r, k)
    {
      if k < lo + 4 {
        assert r[0] <= k < r[0] + 4;
      } else {
        var m :| 0 <= m < |hs| && hs[m] <= k < hs[m] + 4;
        assert r[m + 1] == hs[m];
      }
    }
  }

  lemma CompleteSkip(content: seq<string>, lo: nat, hi: nat, hs: seq<nat>)
    requires lo < |content| && !IntervalHeader(content[lo]) && CompleteIn(content, lo + 1, hi, hs)
    ensures CompleteIn(content, lo, hi, hs)
  {
  }
  // ---- All tiers ----

  /** Without an error there is one interval list per tier from `j` on, and list `m`
      is the intervals of scan `j + m`, which ended without error. */
  lemma {:induction false} CollectAt(scans: seq<TierScan>, j: nat, m: nat)
    requires j <= |scans| && CollectTiers(scans, j).error.None?
    ensures var r := CollectTiers(scans, j);
      |r.tiers| == |scans| - j &&
      (m < |r.tiers| ==> scans[j + m].error.None? && r.tiers[m] == scans[j + m].intervals)
    decreases |scans| - j
  {
    if j < |scans| {
      var rest := CollectTiers(scans, j + 1);
      assert CollectTiers(scans, j).tiers == [scans[j].intervals] + rest.tiers;
      CollectAt(scans, j + 1, if m > 0 then m - 1 else 0);
      if m > 0 {
        assert j + m == (j + 1) + (m - 1);
      }
    }
  }

  /** An error ends the loop in the tier where it arose: the last list is the partial
      scan of that tier, which raised that error. */
  lemma {:induction false} CollectFailed(scans: seq<TierScan>, j: nat)
    requires j <= |scans| && CollectTiers(scans, j).error.Some?
    ensures var r := CollectTiers(scans, j);
      0 < |r.tiers| <= |scans| - j &&
      var last := scans[j + |r.tiers| - 1];
      last.error == r.error && r.tiers[|r.tiers| - 1] == last.intervals
    decreases |scans| - j
  {
    if scans[j].error.None? {
      CollectFailed(scans, j + 1);
      var rest := CollectTiers(scans, j + 1);
      var r := CollectTiers(scans, j);
      assert r.tiers == [scans[j].intervals] + rest.tiers;
      assert j + |r.tiers| - 1 == (j + 1) + |rest.tiers| - 1;
    }
  }

  /** ... and every tier before it ended without error and is kept whole. */
  lemma {:induction false} CollectBefore(scans: seq<TierScan>, j: nat, m: nat)
    requires j <= |scans| && CollectTiers(scans, j).error.Some?
    requires m + 1 < |CollectTiers(scans, j).tiers|
    ensures scans[j + m].error.None? && CollectTiers(scans, j).tiers[m] == scans[j + m].intervals
    decreases |scans| - j
  {
    var rest := CollectTiers(scans, j + 1);
    assert CollectTiers(scans, j).tiers == [scans[j].intervals] + rest.tiers;
    if m > 0 {
      CollectBefore(scans, j + 1, m - 1);
      assert j + m == (j + 1) + (m - 1);
    }
  }

  /** A tier scan never raises the header, size or marker errors. */
  lemma {:induction false} TierErrors(content: seq<string>, lo: nat, hi: nat)
    ensures var e := ScanTier(content, lo, hi).error; e.Some? ==> e.value.NoSuchLine? || e.value.BadNumber?
    decreases hi - lo
  {
    if hi <= lo {
      ScanTierAtEnd(content, lo, hi);
    } else if |content| <= lo {
      ScanTierPastEnd(content, lo, hi);
    } else if !IntervalHeader(content[lo]) {
      ScanTierSkip(content, lo, hi);
      TierErrors(content, lo + 1, hi);
    } else if ReadInterval(content, lo).Err? {
      ScanTierFails(content, lo, hi);
      ReadIntervalErrors(content, lo);
    } else {
      ScanTierHeader(content, lo, hi);
      TierErrors(content, lo + 4, hi);
    }
  }

  // ---- The whole parse ----

  /** The header check: a parse raises `NotTextGrid` exactly when no line starts with
      `Object class` or the first one does not strip to `Object class = "TextGrid"`,
      and then assigns nothing. */
  lemma ParseGridHeader(content: seq<string>)
    ensures var h := FirstWithPrefix(content, ObjectClass, 0, |content|);
      ParseGrid(content).error == Some(NotTextGrid) <==> h.None? || Strip(content[h.value]) != TextGridClass
    ensures ParseGrid(content).error == Some(NotTextGrid) ==> ParseGrid(content) == Failed(NotTextGrid)
  {
    var h := FirstWithPrefix(content, ObjectClass, 0, |content|);
    if h.Some? && Strip(content[h.value]) == TextGridClass {
      var s := FirstWithPrefix(content, SizeKey, 0, |content|);
      if s.Some? {
        var size := IntParse(RemoveAll(Strip(content[s.value]), SizeKey));
        if size.Some? {
          LaterErrors(content, s.value, size.value);
        }
      }
    }
  }

  /** Once the size is read the parse raises only a missing marker or a field error. */
  lemma LaterErrors(content: seq<string>, s: nat, size: int)
    ensures var e := ItemsOutcome(content, s, size).error;
      e.Some? ==> e.value.MissingItem? || e.value.NoSuchLine? || e.value.BadNumber?
  {
    ItemLinesErrors(content, s + 1, 0, size);
    var idx := ItemLines(content, s + 1, 0, size);
    if idx.Ok? {
      var ranges := Ranges(idx.value, |content|);
      var scans := TierScans(content, ranges);
      if CollectTiers(scans, 0).error.Some? {
        CollectFailed(scans, 0);
        var k := |CollectTiers(scans, 0).tiers| - 1;
        TierErrors(content, ranges[k].lo, ranges[k].hi);
      }
    }
  }

  /** Past the header check, the parse raises `NoSize` when no line starts with
      `size = ` and `BadSize` when the rest of the first such line does not read as an
      integer, assigning nothing; otherwise it goes on with the marker search and tier
      scan after that line, for that size. */
  lemma ParseGridSize(content: seq<string>)
    requires ParseGrid(content).error != Some(NotTextGrid)
    ensures var s := FirstWithPrefix(content, SizeKey, 0, |content|);
      s.None? ==> ParseGrid(content) == Failed(NoSize)
    ensures var s := FirstWithPrefix(content, SizeKey, 0, |content|);
      s.Some? ==> var size := IntParse(RemoveAll(Strip(content[s.value]), SizeKey));
      (size.None? ==> ParseGrid(content) == Failed(BadSize)) &&
      (size.Some? ==> ParseGrid(content) == ItemsOutcome(content, s.value, size.value))
  {
    ParseGridHeader(content);
  }

  /** ... so it raises `NoSize` or `BadSize` exactly in those cases, and the size is
      assigned exactly when it reads. */
  lemma ParseGridSizeErrors(content: seq<string>)
    requires ParseGrid(content).error != Some(NotTextGrid)
    ensures var s := FirstWithPrefix(content, SizeKey, 0, |content|);
      var out := ParseGrid(content);
      (out.error == Some(NoSize) <==> s.None?) &&
      (out.error == Some(BadSize) <==> s.Some? && IntParse(RemoveAll(Strip(content[s.value]), SizeKey)).None?) &&
      (out.size.Some? <==> s.Some? && IntParse(RemoveAll(Strip(content[s.value]), SizeKey)).Some?) &&
      (out.size.Some? ==> out.size == IntParse(RemoveAll(Strip(content[s.value]), SizeKey)))
  {
    ParseGridSize(content);
    var s := FirstWithPrefix(content, SizeKey, 0, |content|);
    if s.Some? {
      var size := IntParse(RemoveAll(Strip(content[s.value]), SizeKey));
      if size.Some? {
        LaterErrors(content, s.value, size.value);
        ItemsSize(content, s.value, size.value);
      }
    }
  }

  lemma ItemsSize(content: seq<string>, s: nat, size: int)
    ensures ItemsOutcome(content, s, size).size == Some(size)
  {
  }

  /** After the size line `s`, the ranges are assigned exactly when every marker was
      found or only the last tier's is missing. The markers found are one per tier, each
      the first after the previous one and the first after the `size = ` line. With
      every marker found, the interval lists are assigned too; with only the last
      missing, the ranges are those of the tiers before it, the last of them open. A
      missing marker names a tier from 1 to `size` and leaves no interval lists. */
  lemma ItemsTiers(content: seq<string>, s: nat, size: int)
    ensures var out := ItemsOutcome(content, s, size);
      var idx := ItemLines(content, s + 1, 0, size);
      out.size == Some(size) &&
      (out.itemRanges.Some? <==> idx.Ok? || idx == Err(MissingItem(size))) &&
      (idx.Err? ==> out.intervals.None? && out.error.Some? && out.error.value.MissingItem?) &&
      (idx.Err? ==> 0 < out.error.value.item <= size) &&
      (idx.Ok? ==> ItemChain(content, s + 1, 0, idx.value) && out.intervals.Some?)
    ensures var out := ItemsOutcome(content, s, size);
      var pre := ItemLines(content, s + 1, 0, size - 1);
      0 < size && ItemLines(content, s + 1, 0, size) == Err(MissingItem(size)) ==>
        pre.Ok? && |pre.value| == size - 1 && ItemChain(content, s + 1, 0, pre.value) &&
        FirstWithPrefix(content, ItemMarker(size - 1), SearchFrom(s + 1, pre.value, size - 1), |content|).None? &&
        out.itemRanges == Some(OpenRanges(pre.value))
  {
    ItemLinesSound(content, s + 1, 0, size);
    if 0 < size {
      ItemLinesLastMissing(content, s + 1, 0, size);
      ItemLinesSound(content, s + 1, 0, size - 1);
    }
  }

  lemma ItemsRanges(content: seq<string>, s: nat, size: int)
    requires ItemLines(content, s + 1, 0, size).Ok?
    ensures var idx := ItemLines(content, s + 1, 0, size).value;
      ItemsOutcome(content, s, size).itemRanges == Some(Ranges(idx, |content|))
    ensures var idx := ItemLines(content, s + 1, 0, size).value;
      |idx| == Width(size) && (|idx| > 0 ==> s < idx[0]) && Tiling(Ranges(idx, |content|), idx, |content|)
  {
    ItemsFound(content, s, size);
    ItemsShape(content, s, size);
  }

  lemma ItemsShape(content: seq<string>, s: nat, size: int)
    requires ItemLines(content, s + 1, 0, size).Ok?
    ensures var idx := ItemLines(content, s + 1, 0, size).value;
      |idx| == Width(size) && (|idx| > 0 ==> s < idx[0]) && Tiling(Ranges(idx, |content|), idx, |content|)
  {
    var idx := ItemLines(content, s + 1, 0, size).value;
    ItemLinesSound(content, s + 1, 0, size);
    ItemChainIncreasing(content, s + 1, 0, idx);
    RangesFollow(idx, |content|);
  }

  /** With every marker found, the ranges are those of the markers. */
  lemma ItemsFound(content: seq<string>, s: nat, size: int)
    requires ItemLines(content, s + 1, 0, size).Ok?
    ensures ItemsOutcome(content, s, size).itemRanges == Some(Ranges(ItemLines(content, s + 1, 0, size).value, |content|))
  {
  }

  /** A parse that succeeds holds, for every tier, the complete scan of its range. */
  lemma ItemsIntervals(content: seq<string>, s: nat, size: int, j: nat)
    requires ItemsOutcome(content, s, size).error.None? && j < Width(size)
    ensures var out := ItemsOutcome(content, s, size);
      out.itemRanges.Some? && out.intervals.Some? && j < |out.itemRanges.value| == |out.intervals.value| &&
      AllClosed(out.itemRanges.value) &&
      var t := ScanTier(content, out.itemRanges.value[j].lo, out.itemRanges.value[j].hi);
      t.error.None? && out.intervals.value[j] == t.intervals
  {
    ItemLinesErrors(content, s + 1, 0, size);
    var idx := ItemLines(content, s + 1, 0, size).value;
    ItemLinesAt(content, s + 1, 0, size, 0);
    CollectAt(TierScans(content, Ranges(idx, |content|)), 0, j);
  }

  /** A parse that stops at a field error keeps, in its last interval list, what that
      tier's scan read before the error. */
  lemma ItemsFailedTier(content: seq<string>, s: nat, size: int)
    requires var out := ItemsOutcome(content, s, size); out.intervals.Some? && out.error.Some?
    ensures var out := ItemsOutcome(content, s, size);
      var n := |out.intervals.value|;
      out.itemRanges.Some? && 0 < n <= |out.itemRanges.value| && AllClosed(out.itemRanges.value) &&
      var t := ScanTier(content, out.itemRanges.value[n - 1].lo, out.itemRanges.value[n - 1].hi);
      t.error == out.error && out.intervals.value[n - 1] == t.intervals
  {
    var idx := ItemLines(content, s + 1, 0, size).value;
    CollectFailed(TierScans(content, Ranges(idx, |content|)), 0);
  }

  /** A parse that raises nothing assigns all three fields. */
  lemma ParseGridComplete(content: seq<string>)
    requires ParseGrid(content).error.None?
    ensures var out := ParseGrid(content); out.size.Some? && out.itemRanges.Some? && out.intervals.Some?
  {
    ParseGridHeader(content);
    ParseGridSize(content);
    var s := FirstWithPrefix(content, SizeKey, 0, |content|).value;
    var size := IntParse(RemoveAll(Strip(content[s]), SizeKey)).value;
    ItemsTiers(content, s, size);
  }
}
