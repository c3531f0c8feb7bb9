/** The reference reading of a Praat TextGrid in the long text format: the header
    check, the `size = ` line, one `    item [j]:` block per tier, and in each block the
    intervals, each a `intervals [n]:` line followed by its `xmin`, `xmax` and `text`
    lines. The lines are the raw lines of the file, line ends included. */
module TextGridFormat {
  import opened Wrappers
  import opened Text
  import opened Numerals
  import opened Floats

  const ObjectClass := "Object class"
  const TextGridClass := "Object class = \"TextGrid\""
  const SizeKey := "size = "
  const XminKey := "xmin = "
  const XmaxKey := "xmax = "
  const TextKey := "text = "
  const IntervalsWord := "intervals ["
  const HeaderClose := "]:"

  /** The marker line of tier `j` (counted from 0): `'    item [%d]:' % (j+1)`. */
  function ItemMarker(j: nat): string {
    "    item [" + NatToString(j + 1) + "]:"
  }

  /** `findLineSW(prefix, start, end)`: the first line at or after `start` and before
      `end` (and the end of the file) that starts with `prefix`. */
  function FirstWithPrefix(content: seq<string>, prefix: string, start: nat, end: nat): (r: Option<nat>)
    ensures r.Some? ==> start <= r.value < end && r.value < |content| && StartsWith(content[r.value], prefix)
    ensures r.Some? ==> forall k :: start <= k < r.value ==> !StartsWith(content[k], prefix)
    ensures r.None? ==> forall k :: start <= k < end && k < |content| ==> !StartsWith(content[k], prefix)
    decreases end - start
  {
    if start >= end || start >= |content| then None
    else if StartsWith(content[start], prefix) then Some(start)
    else FirstWithPrefix(content, prefix, start + 1, end)
  }

  /** Length of the leading run of spaces. */
  function SpaceRun(s: string): (k: nat)
    ensures k <= |s|
    decreases |s|
  {
    if |s| > 0 && s[0] == ' ' then 1 + SpaceRun(s[1..]) else 0
  }

  /** `reIntervals.match(l)` for `' +intervals \[[0-9]+\]:'`: one or more spaces, the
      word, one or more digits and the closing `]:`, at the start of the line and with
      anything after it. */
  predicate IntervalHeader(l: string) {
    var k := SpaceRun(l);
    var ds := l[k..];
    k > 0 && StartsWith(ds, IntervalsWord) &&
    var d := DigitRun(ds[|IntervalsWord|..]);
    d > 0 && StartsWith(ds[|IntervalsWord|..][d..], HeaderClose)
  }

  datatype Interval = Interval(xmin: FloatValue, xmax: FloatValue, text: string)

  /** Why a parse raises: the header is wrong, there is no `size = ` line or its number
      does not read, the marker of the given tier (counted from 1) is missing, a field
      line lies beyond the end of the file, or a field's number does not read. */
  datatype GridError = NotTextGrid | NoSize | BadSize | MissingItem(item: nat) | NoSuchLine(line: nat) | BadNumber(line: nat)

  /** `float(content[line].strip().replace(key, ''))`. */
  function FieldNumber(content: seq<string>, line: nat, key: string): (r: Result<FloatValue, GridError>)
    requires |key| > 0
    ensures r.Err? <==> line >= |content| || ParseFloat(RemoveAll(Strip(content[line]), key)).None?
    ensures r.Err? ==> r.error == (if line >= |content| then NoSuchLine(line) else BadNumber(line))
  {
    if line >= |content| then Err(NoSuchLine(line))
    else
      var v := ParseFloat(RemoveAll(Strip(content[line]), key));
      if v.None? then Err(BadNumber(line)) else Ok(v.value)
  }

  /** `l.strip().replace('text = ', '').strip('"')`. */
  function LabelText(l: string): string {
    Trim(RemoveAll(Strip(l), TextKey), Quotes)
  }

  /** The interval whose header is line `h`: its three fields, read in order. */
  function ReadInterval(content: seq<string>, h: nat): Result<Interval, GridError> {
    var x0 := FieldNumber(content, h + 1, XminKey);
    if x0.Err? then Err(x0.error)
    else
      var x1 := FieldNumber(content, h + 2, XmaxKey);
      if x1.Err? then Err(x1.error)
      else if h + 3 >= |content| then Err(NoSuchLine(h + 3))
      else Ok(Interval(x0.value, x1.value, LabelText(content[h + 3])))
  }

  /** The intervals of a tier read from line `lo` up to line `hi`, the header lines
      they came from, and the error that ended the scan, if any (the intervals before
      it are kept). */
  datatype TierScan = TierScan(intervals: seq<Interval>, headers: seq<nat>, error: Option<GridError>)

  /** The `while i1 < i2` loop: a header moves the cursor past its three field lines,
      any other line by one. */
  function ScanTier(content: seq<string>, lo: nat, hi: nat): TierScan
    decreases hi - lo
  {
    if lo >= hi then TierScan([], [], None)
    else if lo >= |content| then TierScan([], [], Some(NoSuchLine(lo)))
    else if IntervalHeader(content[lo]) then
      var iv := ReadInterval(content, lo);
      if iv.Err? then TierScan([], [], Some(iv.error))
      else
        var rest := ScanTier(content, lo + 4, hi);
        TierScan([iv.value] + rest.intervals, [lo] + rest.headers, rest.error)
    else ScanTier(content, lo + 1, hi)
  }

  /** The tier scan at the end of its range, ... */
  lemma ScanTierAtEnd(content: seq<string>, lo: nat, hi: nat)
    requires hi <= lo
    ensures ScanTier(content, lo, hi) == TierScan([], [], None)
  {
  }

  /** ... past the end of the file, ... */
  lemma ScanTierPastEnd(content: seq<string>, lo: nat, hi: nat)
    requires lo < hi && |content| <= lo
    ensures ScanTier(content, lo, hi) == TierScan([], [], Some(NoSuchLine(lo)))
  {
  }

  /** ... at a line that is not an interval header, ... */
  lemma ScanTierSkip(content: seq<string>, lo: nat, hi: nat)
    requires lo < hi && lo < |content| && !IntervalHeader(content[lo])
    ensures ScanTier(content, lo, hi) == ScanTier(content, lo + 1, hi)
  {
  }

  /** One step of the tier scan at an interval header whose fields read. */
  lemma ScanTierHeader(content: seq<string>, lo: nat, hi: nat)
    requires lo < hi && lo < |content| && IntervalHeader(content[lo]) && ReadInterval(content, lo).Ok?
    ensures var rest := ScanTier(content, lo + 4, hi);
      ScanTier(content, lo, hi) == TierScan([ReadInterval(content, lo).value] + rest.intervals, [lo] + rest.headers, rest.error)
  {
  }

  /** ... and at one whose fields do not. */
  lemma ScanTierFails(content: seq<string>, lo: nat, hi: nat)
    requires lo < hi && lo < |content| && IntervalHeader(content[lo]) && ReadInterval(content, lo).Err?
    ensures ScanTier(content, lo, hi) == TierScan([], [], Some(ReadInterval(content, lo).error))
  {
  }

  /** Reading an interval only raises for a field line beyond the file or a number that
      does not read. */
  lemma ReadIntervalErrors(content: seq<string>, h: nat)
    ensures ReadInterval(content, h).Err? ==> ReadInterval(content, h).error.NoSuchLine? || ReadInterval(content, h).error.BadNumber?
  {
  }

  /** The lines of the markers of tiers `j` to `size - 1`, each searched from the line
      after the previous one. */
  function ItemLines(content: seq<string>, from: nat, j: nat, size: int): Result<seq<nat>, GridError>
    decreases size - j
  {
    if j >= size then Ok([])
    else
      var k := FirstWithPrefix(content, ItemMarker(j), from, |content|);
      if k.None? then Err(MissingItem(j + 1))
      else
        var rest := ItemLines(content, k.value + 1, j + 1, size);
        if rest.Err? then rest else Ok([k.value] + rest.value)
  }

  /** The lines of a tier: from the line after its marker up to the next marker, or to
      the end of the file for the last tier. An open range is the tuple
      `(idx[j]+1, None)` built for a tier whose next marker was not found. */
  datatype Range = Range(lo: nat, hi: nat) | OpenRange(lo: nat)

  /** Every range has an end. */
  predicate AllClosed(ranges: seq<Range>) {
    forall m :: 0 <= m < |ranges| ==> ranges[m].Range?
  }

  /** The ranges of the tiers whose markers are on the lines `idx`, in a file of `n`
      lines. */
  function Ranges(idx: seq<nat>, n: nat): (r: seq<Range>)
    ensures |r| == |idx| && AllClosed(r)
  {
    seq(|idx|, j requires 0 <= j < |idx| => Range(idx[j] + 1, if j + 1 < |idx| then idx[j + 1] else n))
  }

  /** The ranges the loop `for j in range(self.size)` builds when the marker of the last
      tier alone is missing, from the lines `idx` of the markers before it: the range of
      the tier before the missing one ends at `None`, and the loop raises at the missing
      one itself. */
  function OpenRanges(idx: seq<nat>): (r: seq<Range>)
    ensures |r| == |idx|
  {
    seq(|idx|, j requires 0 <= j < |idx| => if j + 1 < |idx| then Range(idx[j] + 1, idx[j + 1]) else OpenRange(idx[j] + 1))
  }

  /** The interval lists of tiers `j` on, and the error that ended the scan, if any (the
      tier it ended in keeps the intervals read before it). */
  datatype TiersScan = TiersScan(tiers: seq<seq<Interval>>, error: Option<GridError>)

  /** The scan of each tier's range. */
  function TierScans(content: seq<string>, ranges: seq<Range>): (r: seq<TierScan>)
    requires AllClosed(ranges)
    ensures |r| == |ranges|
  {
    seq(|ranges|, m requires 0 <= m < |ranges| => ScanTier(content, ranges[m].lo, ranges[m].hi))
  }

  /** The `for j in range(size)` loop over the tier scans from `j` on: each tier's
      intervals are appended, and the first scan that raised ends the loop. */
  function CollectTiers(scans: seq<TierScan>, j: nat): (r: TiersScan)
    ensures j <= |scans| ==> |r.tiers| <= |scans| - j
    decreases |scans| - j
  {
    if j >= |scans| then TiersScan([], None)
    else if scans[j].error.Some? then TiersScan([scans[j].intervals], scans[j].error)
    else
      var rest := CollectTiers(scans, j + 1);
      TiersScan([scans[j].intervals] + rest.tiers, rest.error)
  }

  /** What `parse` leaves: the fields it assigned (`None` for one it did not reach) and
      the error it raised, if any. */
  datatype Outcome = Outcome(size: Option<int>, itemRanges: Option<seq<Range>>,
                             intervals: Option<seq<seq<Interval>>>, error: Option<GridError>)

  function Failed(e: GridError): Outcome {
    Outcome(None, None, None, Some(e))
  }

  /** What `parse` does once it has read `size` from line `s`: find the markers, then
      scan each tier's range. A missing marker raises before `itemRanges` is assigned,
      unless it is the last tier's: then the ranges of the tiers before it are assigned
      first. */
  function ItemsOutcome(content: seq<string>, s: nat, size: int): Outcome {
    var idx := ItemLines(content, s + 1, 0, size);
    if idx.Err? then
      var found := ItemLines(content, s + 1, 0, size - 1);
      var ranges := if idx.error == MissingItem(size) && found.Ok? then Some(OpenRanges(found.value)) else None;
      Outcome(Some(size), ranges, None, Some(idx.error))
    else
      var ranges := Ranges(idx.value, |content|);
      var tiers := CollectTiers(TierScans(content, ranges), 0);
      Outcome(Some(size), Some(ranges), Some(tiers.tiers), tiers.error)
  }

  /** `TextGrid.parse`. */
  function ParseGrid(content: seq<string>): Outcome {
    var h := FirstWithPrefix(content, ObjectClass, 0, |content|);
    if h.None? || Strip(content[h.value]) != TextGridClass then Failed(NotTextGrid)
    else
      var s := FirstWithPrefix(content, SizeKey, 0, |content|);
      if s.None? then Failed(NoSize)
      else
        var size := IntParse(RemoveAll(Strip(content[s.value]), SizeKey));
        if size.None? then Failed(BadSize)
        else ItemsOutcome(content, s.value, size.value)
  }
}
