/** The `TextGrid` class: the lines of a TextGrid file and what `parse` reads from
    them. Each method is proved to leave the state the reference reading
    `TextGridFormat.ParseGrid` describes. */
module TextGrids {
  import opened Wrappers
  import opened Text
  import opened Numerals
  import opened Floats
  import opened TextGridFormat
  import opened TextGridProperties

  /** A marker search that found `acc` so far and then goes on as `r`. */
  function Prepend(acc: seq<nat>, r: Result<seq<nat>, GridError>): Result<seq<nat>, GridError> {
    if r.Err? then r else Ok(acc + r.value)
  }

  /** A marker search that found `acc` so far and goes on from line `cur` with tier `j`. */
  predicate SearchedSoFar(content: seq<string>, size: int, whole: Result<seq<nat>, GridError>, acc: seq<nat>, cur: nat, j: nat) {
    whole == Prepend(acc, ItemLines(content, cur, j, size))
  }

  /** The markers `acc` of the first `j` tiers were found, and the search goes on from
      line `cur`, the one after the last of them. */
  predicate FoundSoFar(content: seq<string>, from: nat, acc: seq<nat>, cur: nat, j: nat) {
    |acc| == j && ItemLines(content, from, 0, j) == Ok(acc) && cur == SearchFrom(from, acc, j)
  }

  lemma FoundStep(content: seq<string>, from: nat, acc: seq<nat>, cur: nat, j: nat, k: nat)
    requires FoundSoFar(content, from, acc, cur, j)
    requires FirstWithPrefix(content, ItemMarker(j), cur, |content|) == Some(k)
    ensures FoundSoFar(content, from, acc + [k], k + 1, j + 1)
  {
    ItemLinesExtend(content, from, 0, j, acc, k);
  }

  /** A tier scan that read `acc` so far and then goes on as `rest`. */
  predicate ScannedSoFar(whole: TierScan, acc: seq<Interval>, rest: TierScan) {
    whole.intervals == acc + rest.intervals && whole.error == rest.error
  }

  /** A loop over the tiers that collected `acc` so far and then goes on as `rest`. */
  predicate CollectedSoFar(whole: TiersScan, acc: seq<seq<Interval>>, rest: TiersScan) {
    whole.tiers == acc + rest.tiers && whole.error == rest.error
  }

  class TextGrid {
    /** The lines of the file, line ends included. */
    var content: seq<string>
    var size: int
    var itemRanges: seq<Range>
    var intervals: seq<seq<Interval>>

    /** The object before `parse` has assigned anything. */
    constructor (lines: seq<string>)
      ensures content == lines && size == 0 && itemRanges == [] && intervals == []
    {
      content := lines;
      size := 0;
      itemRanges := [];
      intervals := [];
    }

    /** `TextGrid(fname)`: the object for the lines of the file, parsed; no object when
        the parse raises. */
    static method Load(lines: seq<string>) returns (g: TextGrid?, err: Option<GridError>)
      ensures err == ParseGrid(lines).error
      ensures err.Some? <==> g == null
      ensures g != null ==> fresh(g) && g.content == lines
      ensures var out := ParseGrid(lines);
        g != null ==> Some(g.size) == out.size && Some(g.itemRanges) == out.itemRanges && Some(g.intervals) == out.intervals
    {
      var t := new TextGrid(lines);
      err := t.Parse();
      if err.Some? {
        g := null;
      } else {
        ParseGridComplete(lines);
        g := t;
      }
    }

    /** `findLineSW(line, start, end)`: the first line from `start` up to `end` (the end
        of the file when `end` is `None`) that starts with `prefix`, and that line. */
    method FindLineSW(prefix: string, start: nat, end: Option<nat>) returns (i: Option<nat>, l: Option<string>)
      ensures i == FirstWithPrefix(content, prefix, start, if end.None? then |content| else end.value)
      ensures i.Some? ==> i.value < |content| && l == Some(content[i.value])
      ensures i.None? ==> l.None?
    {
      var e := if end.None? then |content| else end.value;
      var k := start;
      while k < e && k < |content|
        invariant start <= k
        invariant FirstWithPrefix(content, prefix, start, e) == FirstWithPrefix(content, prefix, k, e)
        decreases |content| - k
      {
        if StartsWith(content[k], prefix) {
          return Some(k), Some(content[k]);
        }
        k := k + 1;
      }
      return None, None;
    }

    /** `parse`: raises, as the returned error, exactly when the reference reading does,
        and assigns `size`, `itemRanges` and `intervals` as far as it reaches. */
    method Parse() returns (err: Option<GridError>)
      modifies this
      ensures content == old(content)
      ensures var out := ParseGrid(content);
        err == out.error &&
        size == (if out.size.Some? then out.size.value else old(size)) &&
        itemRanges == (if out.itemRanges.Some? then out.itemRanges.value else old(itemRanges)) &&
        intervals == (if out.intervals.Some? then out.intervals.value else old(intervals))
    {
      var ok := CheckHeader();
      if !ok {
        return Some(NotTextGrid);
      }
      var s, n, e := ReadSize();
      if e.Some? {
        return e;
      }
      err := ParseItems(s, n);
    }

    /** The header check of `parse`: the first `Object class` line must read, stripped,
        `Object class = "TextGrid"`. */
    method CheckHeader() returns (ok: bool)
      ensures var h := FirstWithPrefix(content, ObjectClass, 0, |content|);
        ok <==> h.Some? && Strip(content[h.value]) == TextGridClass
      ensures ok <==> ParseGrid(content).error != Some(NotTextGrid)
      ensures !ok ==> ParseGrid(content) == Failed(NotTextGrid)
    {
      ParseGridHeader(content);
      var i, l := FindLineSW(ObjectClass, 0, None);
      ok := i.Some? && Strip(l.value) == TextGridClass;
    }

    /** The `size = ` line of `parse`: its line `s` and the number `n` it reads as, or
        the error raised when there is no such line or its number does not read. */
    method ReadSize() returns (s: nat, n: int, err: Option<GridError>)
      requires ParseGrid(content).error != Some(NotTextGrid)
      ensures err.None? <==>
        (FirstWithPrefix(content, SizeKey, 0, |content|) == Some(s) && IntParse(RemoveAll(Strip(content[s]), SizeKey)) == Some(n))
      ensures err.Some? ==> ParseGrid(content) == Failed(err.value) && (err == Some(NoSize) || err == Some(BadSize))
      ensures err.None? ==> ParseGrid(content) == ItemsOutcome(content, s, n)
    {
      ParseGridSize(content);
      var i, l := FindLineSW(SizeKey, 0, None);
      if i.None? {
        return 0, 0, Some(NoSize);
      }
      s := i.value;
      var v := IntParse(RemoveAll(Strip(l.value), SizeKey));
      if v.None? {
        return s, 0, Some(BadSize);
      }
      return s, v.value, None;
    }

    /** The part of `parse` after the `size = ` line `s`, which reads as `n`. */
    method ParseItems(s: nat, n: int) returns (err: Option<GridError>)
      modifies this
      ensures content == old(content)
      ensures var out := ItemsOutcome(content, s, n);
        err == out.error && size == n &&
        itemRanges == (if out.itemRanges.Some? then out.itemRanges.value else old(itemRanges)) &&
        intervals == (if out.intervals.Some? then out.intervals.value else old(intervals))
    {
      size := n;
      var idx, found := FindItems(s + 1);
      if idx.Err? {
        if idx.error == MissingItem(n) {
          BuildRanges(found, false);
        }
        return Some(idx.error);
      }
      ItemLinesAt(content, s + 1, 0, n, 0);
      BuildRanges(idx.value, true);
      err := ReadTiers();
    }

    /** The `for j in range(self.size)` search for the item markers, each from the line
        after the previous one; `found` are the markers found before the search stopped. */
    method FindItems(from: nat) returns (idx: Result<seq<nat>, GridError>, found: seq<nat>)
      ensures idx == ItemLines(content, from, 0, size)
      ensures 0 < size && idx == Err(MissingItem(size)) ==>
        |found| + 1 == size && ItemLines(content, from, 0, size - 1) == Ok(found)
    {
      var acc: seq<nat> := [];
      var cur := from;
      var j: nat := 0;
      ghost var whole := ItemLines(content, from, 0, size);
      PrependNothing(whole);
      while j < size
        invariant SearchedSoFar(content, size, whole, acc, cur, j)
        invariant FoundSoFar(content, from, acc, cur, j)
        decreases size - j
      {
        var i, _ := FindLineSW(ItemMarker(j), cur, None);
        SearchStep(content, size, whole, acc, cur, j, i);
        if i.None? {
          return Err(MissingItem(j + 1)), acc;
        }
        FoundStep(content, from, acc, cur, j, i.value);
        acc := acc + [i.value];
        cur := i.value + 1;
        j := j + 1;
      }
      SearchDone(content, size, whole, acc, cur, j);
      return Ok(acc), acc;
    }

    /** `itemRanges`: for each tier, the lines after its marker up to the next marker or
        the end of the file. With `complete` false the markers `idx` stop before the last
        tier's, and the list ends after the open range of the tier before it: the next
        tier has no marker line to start from. */
    method BuildRanges(idx: seq<nat>, complete: bool)
      requires if complete then |idx| == Width(size) else |idx| + 1 == size
      modifies this
      ensures content == old(content) && size == old(size) && intervals == old(intervals)
      ensures itemRanges == if complete then Ranges(idx, |content|) else OpenRanges(idx)
    {
      ghost var whole := if complete then Ranges(idx, |content|) else OpenRanges(idx);
      itemRanges := [];
      var j := 0;
      while j < size
        invariant content == old(content) && size == old(size) && intervals == old(intervals)
        invariant 0 <= j <= |idx| && (complete && size >= 0 ==> j <= size)
        invariant |itemRanges| == j && forall m :: 0 <= m < j ==> itemRanges[m] == whole[m]
      {
        if j == |idx| {
          assert itemRanges == whole;
          return;
        }
        var r := if j + 1 < |idx| then Range(idx[j] + 1, idx[j + 1])
          else if complete then Range(idx[j] + 1, |content|)
          else OpenRange(idx[j] + 1);
        BuiltAt(idx, |content|, complete, j);
        itemRanges := itemRanges + [r];
        j := j + 1;
      }
      assert itemRanges == whole;
    }

    /** `intervals`: for each tier a new list, filled by the scan of its range; the first
        field that fails to read ends the parse. */
    method ReadTiers() returns (err: Option<GridError>)
      requires |itemRanges| == Width(size) && AllClosed(itemRanges)
      modifies this
      ensures content == old(content) && size == old(size) && itemRanges == old(itemRanges)
      ensures var r := CollectTiers(TierScans(content, itemRanges), 0);
        intervals == r.tiers && err == r.error
    {
      ghost var scans := TierScans(content, itemRanges);
      ghost var whole := CollectTiers(scans, 0);
      intervals := [];
      var j := 0;
      assert [] + whole.tiers == whole.tiers;
      while j < size
        invariant content == old(content) && size == old(size) && itemRanges == old(itemRanges)
        invariant j <= |itemRanges| && |intervals| == j
        invariant CollectedSoFar(whole, intervals, CollectTiers(scans, j))
      {
        ghost var prev := intervals;
        intervals := intervals + [[]];
        err := ReadTier(itemRanges[j].lo, itemRanges[j].hi);
        assert scans[j] == ScanTier(content, itemRanges[j].lo, itemRanges[j].hi);
        NewLast(prev, intervals, scans[j].intervals);
        CollectedStep(whole, prev, scans, j);
        if err.Some? {
          return;
        }
        j := j + 1;
      }
      CollectedDone(whole, intervals, scans, j);
      err := None;
    }

    /** The `while i1 < i2` loop over one tier's range: each interval header adds the
        interval its three field lines read to the last list of `intervals`. */
    method ReadTier(lo: nat, hi: nat) returns (err: Option<GridError>)
      requires |intervals| > 0
      modifies this
      ensures content == old(content) && size == old(size) && itemRanges == old(itemRanges)
      ensures var t := ScanTier(content, lo, hi); var n := |old(intervals)|;
        err == t.error && intervals == old(intervals)[..n - 1] + [old(intervals)[n - 1] + t.intervals]
    {
      var n := |intervals|;
      ghost var start := intervals[n - 1];
      ghost var acc: seq<Interval> := [];
      var i1 := lo;
      while i1 < hi
        invariant content == old(content) && size == old(size) && itemRanges == old(itemRanges)
        invariant |intervals| == n && intervals[..n - 1] == old(intervals)[..n - 1]
        invariant intervals[n - 1] == start + acc
        invariant ScannedSoFar(ScanTier(content, lo, hi), acc, ScanTier(content, i1, hi))
        decreases hi - i1
      {
        if i1 >= |content| {
          ScanTierPastEnd(content, i1, hi);
          SoFarDone(ScanTier(content, lo, hi), acc, ScanTier(content, i1, hi));
          AppendedLast(intervals, old(intervals), start, acc);
          return Some(NoSuchLine(i1));
        }
        if IntervalHeader(content[i1]) {
          var iv := ReadFields(i1);
          if iv.Err? {
            ScanTierFails(content, i1, hi);
            SoFarDone(ScanTier(content, lo, hi), acc, ScanTier(content, i1, hi));
            AppendedLast(intervals, old(intervals), start, acc);
            return Some(iv.error);
          }
          ScanTierHeader(content, i1, hi);
          SoFarStep(ScanTier(content, lo, hi), acc, ScanTier(content, i1, hi), iv.value, ScanTier(content, i1 + 4, hi));
          intervals := intervals[n - 1 := intervals[n - 1] + [iv.value]];
          acc := acc + [iv.value];
          i1 := i1 + 4;
        } else {
          ScanTierSkip(content, i1, hi);
          i1 := i1 + 1;
        }
      }
      ScanTierAtEnd(content, i1, hi);
      SoFarDone(ScanTier(content, lo, hi), acc, ScanTier(content, i1, hi));
      AppendedLast(intervals, old(intervals), start, acc);
      return None;
    }

    /** The dictionary of the interval whose header is line `h`: `xmin`, `xmax` and
        `text`, read in that order; a missing line or a number that does not read raises. */
    method ReadFields(h: nat) returns (r: Result<Interval, GridError>)
      ensures r == ReadInterval(content, h)
    {
      if h + 1 >= |content| {
        return Err(NoSuchLine(h + 1));
      }
      var xmin := ParseFloat(RemoveAll(Strip(content[h + 1]), XminKey));
      if xmin.None? {
        return Err(BadNumber(h + 1));
      }
      if h + 2 >= |content| {
        return Err(NoSuchLine(h + 2));
      }
      var xmax := ParseFloat(RemoveAll(Strip(content[h + 2]), XmaxKey));
      if xmax.None? {
        return Err(BadNumber(h + 2));
      }
      if h + 3 >= |content| {
        return Err(NoSuchLine(h + 3));
      }
      return Ok(Interval(xmin.value, xmax.value, LabelText(content[h + 3])));
    }
  }

  /** Range `j` of the list `BuildRanges` builds. */
  lemma BuiltAt(idx: seq<nat>, n: nat, complete: bool, j: nat)
    requires j < |idx|
    ensures (if complete then Ranges(idx, n) else OpenRanges(idx))[j] ==
      if j + 1 < |idx| then Range(idx[j] + 1, idx[j + 1])
      else if complete then Range(idx[j] + 1, n)
      else OpenRange(idx[j] + 1)
  {
  }

  lemma PrependNothing(r: Result<seq<nat>, GridError>)
    ensures Prepend([], r) == r
  {
    if r.Ok? {
      assert [] + r.value == r.value;
    }
  }

  lemma PrependStep(acc: seq<nat>, k: nat, r: Result<seq<nat>, GridError>)
    ensures Prepend(acc, Prepend([k], r)) == Prepend(acc + [k], r)
  {
    if r.Ok? {
      assert acc + ([k] + r.value) == (acc + [k]) + r.value;
    }
  }

  /** One step of the marker search, after the markers `acc`: the marker of tier `j`
      found at line `k` joins them, and a missing one ends the search. */
  lemma ItemLinesStep(content: seq<string>, from: nat, j: nat, size: int, acc: seq<nat>, k: Option<nat>)
    requires j < size && FirstWithPrefix(content, ItemMarker(j), from, |content|) == k
    ensures k.None? ==> Prepend(acc, ItemLines(content, from, j, size)) == Err(MissingItem(j + 1))
    ensures k.Some? ==>
      Prepend(acc, ItemLines(content, from, j, size)) == Prepend(acc + [k.value], ItemLines(content, k.value + 1, j + 1, size))
  {
    if k.None? {
      ItemLinesMissing(content, from, j, size);
    } else {
      ItemLinesFound(content, from, j, size, k.value);
      PrependStep(acc, k.value, ItemLines(content, k.value + 1, j + 1, size));
    }
  }

  /** One turn of the marker search loop: a missing marker ends it, a found one is kept. */
  lemma SearchStep(content: seq<string>, size: int, whole: Result<seq<nat>, GridError>, acc: seq<nat>, cur: nat, j: nat, k: Option<nat>)
    requires SearchedSoFar(content, size, whole, acc, cur, j) && j < size
    requires k == FirstWithPrefix(content, ItemMarker(j), cur, |content|)
    ensures k.None? ==> whole == Err(MissingItem(j + 1))
    ensures k.Some? ==> SearchedSoFar(content, size, whole, acc + [k.value], k.value + 1, j + 1)
  {
    ItemLinesStep(content, cur, j, size, acc, k);
  }

  /** The marker search loop after the last tier. */
  lemma SearchDone(content: seq<string>, size: int, whole: Result<seq<nat>, GridError>, acc: seq<nat>, cur: nat, j: nat)
    requires SearchedSoFar(content, size, whole, acc, cur, j) && size <= j
    ensures whole == Ok(acc)
  {
    assert acc + [] == acc;
  }

  /** One step of the marker search: a marker found at line `k`, ... */
  lemma ItemLinesFound(content: seq<string>, from: nat, j: nat, size: int, k: nat)
    requires j < size && FirstWithPrefix(content, ItemMarker(j), from, |content|) == Some(k)
    ensures ItemLines(content, from, j, size) == Prepend([k], ItemLines(content, k + 1, j + 1, size))
  {
  }

  /** ... or not found. */
  lemma ItemLinesMissing(content: seq<string>, from: nat, j: nat, size: int)
    requires j < size && FirstWithPrefix(content, ItemMarker(j), from, |content|).None?
    ensures ItemLines(content, from, j, size) == Err(MissingItem(j + 1))
  {
  }

  /** The list of lists after a new empty last list was filled with `x`. */
  lemma NewLast<T>(prev: seq<seq<T>>, now: seq<seq<T>>, x: seq<T>)
    requires var before := prev + [[]]; now == before[..|before| - 1] + [before[|before| - 1] + x]
    ensures now == prev + [x]
  {
    assert (prev + [[]])[..|prev|] == prev;
    assert [] + x == x;
  }

  /** One tier of the loop over the tiers. */
  lemma CollectedStep(whole: TiersScan, acc: seq<seq<Interval>>, scans: seq<TierScan>, j: nat)
    requires j < |scans| && CollectedSoFar(whole, acc, CollectTiers(scans, j))
    ensures scans[j].error.Some? ==> whole.tiers == acc + [scans[j].intervals] && whole.error == scans[j].error
    ensures scans[j].error.None? ==> CollectedSoFar(whole, acc + [scans[j].intervals], CollectTiers(scans, j + 1))
  {
    if scans[j].error.None? {
      var rest := CollectTiers(scans, j + 1);
      assert acc + ([scans[j].intervals] + rest.tiers) == (acc + [scans[j].intervals]) + rest.tiers;
    }
  }

  /** The loop over the tiers at its end. */
  lemma CollectedDone(whole: TiersScan, acc: seq<seq<Interval>>, scans: seq<TierScan>, j: nat)
    requires |scans| <= j && CollectedSoFar(whole, acc, CollectTiers(scans, j))
    ensures whole.tiers == acc && whole.error.None?
  {
    assert acc + [] == acc;
  }

  lemma SoFarStep(whole: TierScan, acc: seq<Interval>, mid: TierScan, iv: Interval, next: TierScan)
    requires ScannedSoFar(whole, acc, mid) && mid.intervals == [iv] + next.intervals && mid.error == next.error
    ensures ScannedSoFar(whole, acc + [iv], next)
  {
    assert acc + ([iv] + next.intervals) == (acc + [iv]) + next.intervals;
  }

  lemma SoFarDone(whole: TierScan, acc: seq<Interval>, rest: TierScan)
    requires ScannedSoFar(whole, acc, rest) && rest.intervals == []
    ensures whole.intervals == acc && whole.error == rest.error
  {
    assert acc + [] == acc;
  }

  /** Replacing the last of `n` lists by `start + acc`, where `start` was the last. */
  lemma AppendedLast<T>(now: seq<seq<T>>, before: seq<seq<T>>, start: seq<T>, acc: seq<T>)
    requires |now| == |before| > 0 && now[..|now| - 1] == before[..|before| - 1]
    requires start == before[|before| - 1] && now[|now| - 1] == start + acc
    ensures now == before[..|before| - 1] + [before[|before| - 1] + acc]
  {
    assert now == now[..|now| - 1] + [now[|now| - 1]];
  }
}
