/** The Formant "long text" report parser: `Formants.from_praat_text` and its cursor
    helper `Formants._find_line`, plus the Matlab-literal export of the parsed data set. */
module FormantReport {
  import opened Wrappers
  import opened Text
  import opened Numerals
  import opened FormantPatterns
  import opened MatlabLiteral

  const FileTypeHeader: string := "File type = \"ooTextFile\""
  const ObjectClassHeader: string := "Object class = \"Formant 2\""

  /** The six scalar fields, in the order they are searched for. */
  const ScalarKeys: seq<string> := ["xmin", "xmax", "nx", "dx", "x1", "maxnFormants"]

  /** The keys of the data dictionary, in insertion order. */
  const ReportKeys: seq<string> := ScalarKeys + ["t", "formants", "bandwidths", "intensity"]

  const FramesMarker: Pattern := Indexed("frames")
  const FramesArray: Pattern := ArrayHeader("frames")
  const FormantMarker: Pattern := Indexed("formant")
  const FormantArray: Pattern := ArrayHeader("formant")
  const Intensity: Pattern := Field("intensity")
  const Frequency: Pattern := Field("frequency")
  const Bandwidth: Pattern := Field("bandwidth")

  /** Why a parse or an export fails: the file has fewer than two lines (`IndexError`), a
      header line differs (`ValueError` naming the line), a required field is not found
      (`last_match` is `None`, so `.group` raises), a formant index lies outside the slot
      list (`IndexError`), an export is asked of an unparsed object (`ValueError`), or an
      empty list reaches the as-written renderer (`IndexError`). */
  datatype Error =
    | ShortFile
    | NotPraatText(header: string)
    | NotFormant2(header: string)
    | MissingField(pattern: Pattern)
    | SlotOutOfRange(index: int)
    | NoData
    | EmptyList

  /** `[x.strip() for x in open(filename)]`: every line of the file, stripped. */
  function StripLines(lines: seq<string>): (f: seq<string>)
    ensures |f| == |lines| && forall j :: 0 <= j < |lines| ==> f[j] == Strip(lines[j])
  {
    seq(|lines|, j requires 0 <= j < |lines| => Strip(lines[j]))
  }

  /** The header check as written, which `from_praat_text` runs: it passes and fails on
      the same files as the corrected check, but its second message quotes line 0, not
      line 1. */
  function HeaderErrorAsWritten(f: seq<string>): (r: Option<Error>)
    ensures r.None? <==> HeaderError(f).None?
    ensures r.Some? && !r.value.NotFormant2? ==> r == HeaderError(f)
    ensures r.Some? && r.value.NotFormant2? ==> |f| >= 2 && HeaderError(f) == Some(NotFormant2(f[1]))
  {
    if |f| < 1 then Some(ShortFile)
    else if f[0] != FileTypeHeader then Some(NotPraatText(f[0]))
    else if |f| < 2 then Some(ShortFile)
    else if f[1] != ObjectClassHeader then Some(NotFormant2(f[0]))
    else None
  }

  /** The header check, with each message quoting the offending line. */
  function HeaderError(f: seq<string>): (r: Option<Error>)
    ensures r.None? <==> |f| >= 2 && f[0] == FileTypeHeader && f[1] == ObjectClassHeader
    ensures r.Some? && r.value.NotPraatText? ==> |f| >= 1 && r.value.header == f[0] != FileTypeHeader
    ensures r.Some? && r.value.NotFormant2? ==> |f| >= 2 && f[0] == FileTypeHeader && r.value.header == f[1] != ObjectClassHeader
    ensures r.Some? ==> r.value.ShortFile? || r.value.NotPraatText? || r.value.NotFormant2?
  {
    if |f| < 1 then Some(ShortFile)
    else if f[0] != FileTypeHeader then Some(NotPraatText(f[0]))
    else if |f| < 2 then Some(ShortFile)
    else if f[1] != ObjectClassHeader then Some(NotFormant2(f[1]))
    else None
  }

  /** As written, a wrong second header is reported with the first line's text, which is
      the valid `File type` header, not the offending line. */
  lemma HeaderMessageNamesFirstLine(f: seq<string>)
    requires HeaderErrorAsWritten(f).Some? && HeaderErrorAsWritten(f).value.NotFormant2?
    ensures HeaderErrorAsWritten(f).value.header == FileTypeHeader
    ensures HeaderError(f) == Some(NotFormant2(f[1]))
  {
  }

  /** A TextGrid handed to the Formant parser is reported with the wrong line. */
  lemma TextGridHeaderMisreported()
    ensures HeaderErrorAsWritten([FileTypeHeader, "Object class = \"TextGrid\""]) == Some(NotFormant2(FileTypeHeader))
    ensures HeaderError([FileTypeHeader, "Object class = \"TextGrid\""]) == Some(NotFormant2("Object class = \"TextGrid\""))
  {
  }

  /** No line is both a formant marker and a frequency field ('o' against 'r' in the
      second letter of the names). */
  lemma FormantNotFrequency(line: string)
    ensures !(Matches(FormantMarker, line) && Matches(Frequency, line))
  {
    assert FormantMarker.Name()[1] == 'o' && Frequency.Name()[1] == 'r';
    Exclusive(FormantMarker, Frequency, line, 1);
  }

  /** No line is both a frames marker and an intensity field. */
  lemma FramesNotIntensity(line: string)
    ensures !(Matches(FramesMarker, line) && Matches(Intensity, line))
  {
    assert FramesMarker.Name()[0] == 'f' && Intensity.Name()[0] == 'i';
    Exclusive(FramesMarker, Intensity, line, 0);
  }

  /** No line is both a formant marker and a frames marker. */
  lemma FormantNotFrames(line: string)
    ensures !(Matches(FormantMarker, line) && Matches(FramesMarker, line))
  {
    assert FormantMarker.Name()[1] == 'o' && FramesMarker.Name()[1] == 'r';
    Exclusive(FormantMarker, FramesMarker, line, 1);
  }

  /** No line is both a frequency field and a bandwidth field. */
  lemma FrequencyNotBandwidth(line: string)
    ensures !(Matches(Frequency, line) && Matches(Bandwidth, line))
  {
    assert Frequency.Name()[0] == 'f' && Bandwidth.Name()[0] == 'b';
    Exclusive(Frequency, Bandwidth, line, 0);
  }

  /** Python's `lst[index] = v` on a list of length `len`: a negative index counts from
      the end; an index outside `-len .. len-1` raises (`None`). */
  function PySlot(index: int, len: nat): (r: Option<nat>)
    ensures r.Some? <==> -(len as int) <= index < len
    ensures r.Some? ==> r.value < len && (r.value == index || r.value == index + len)
  {
    if 0 <= index < len then Some(index)
    else if -(len as int) <= index < 0 then Some(index + len)
    else None
  }

  /** The slot a `formant [m]:` line writes in a row of `maxn` slots: index `m - 1`. */
  function FormantSlot(line: string, maxn: nat): Option<nat>
    requires Matches(FormantMarker, line)
  {
    PySlot(MarkerNumber(FormantMarker, line) - 1, maxn)
  }

  /** Only `formant [0]:` wraps around: it writes the last slot. */
  lemma FormantSlotWraps(line: string, maxn: nat)
    requires Matches(FormantMarker, line)
    ensures MarkerNumber(FormantMarker, line) >= 1 ==>
              FormantSlot(line, maxn) == (if MarkerNumber(FormantMarker, line) <= maxn then Some(MarkerNumber(FormantMarker, line) - 1) else None)
    ensures MarkerNumber(FormantMarker, line) == 0 ==>
              FormantSlot(line, maxn) == (if maxn > 0 then Some(maxn - 1) else None)
  {
  }

  /** The parsed data set, `self.data`, with the missing slots (`numpy.nan`) as `None`. */
  datatype Report = Report(
    xmin: real, xmax: real, nx: int, dx: real, x1: real, maxnFormants: int,
    t: seq<real>,
    formants: seq<seq<Option<real>>>,
    bandwidths: seq<seq<Option<real>>>,
    intensity: seq<real>)

  function Cell(x: Option<real>): Num {
    if x.Some? then Float(x.value) else NaN
  }

  function Floats(xs: seq<real>): (r: seq<Num>)
    ensures |r| == |xs| && forall k :: 0 <= k < |xs| ==> r[k] == Float(xs[k])
  {
    seq(|xs|, k requires 0 <= k < |xs| => Float(xs[k]))
  }

  function Cells(rows: seq<seq<Option<real>>>): (r: seq<seq<Num>>)
    ensures |r| == |rows|
    ensures forall k :: 0 <= k < |rows| ==> |r[k]| == |rows[k]| && forall s :: 0 <= s < |rows[k]| ==> r[k][s] == Cell(rows[k][s])
  {
    seq(|rows|, k requires 0 <= k < |rows| => seq(|rows[k]|, s requires 0 <= s < |rows[k]| => Cell(rows[k][s])))
  }

  function Keys(d: seq<Entry>): (r: seq<string>)
    ensures |r| == |d| && forall k :: 0 <= k < |d| ==> r[k] == d[k].key
  {
    seq(|d|, k requires 0 <= k < |d| => d[k].key)
  }

  /** The dictionary while the scalars are being read: the first `|vals|` keys, as floats. */
  function ScalarDict(vals: seq<real>): (d: seq<Entry>)
    requires |vals| <= |ScalarKeys|
    ensures Keys(d) == ReportKeys[..|vals|]
  {
    seq(|vals|, k requires 0 <= k < |vals| => Entry(ScalarKeys[k], Scalar(Float(vals[k]))))
  }

  /** The dictionary once every scalar is read: `nx` and `maxnFormants` as integers, then
      the four lists. */
  function ReportDict(r: Report): (d: seq<Entry>)
    ensures Keys(d) == ReportKeys
  {
    [Entry("xmin", Scalar(Float(r.xmin))), Entry("xmax", Scalar(Float(r.xmax))),
     Entry("nx", Scalar(Int(r.nx))), Entry("dx", Scalar(Float(r.dx))),
     Entry("x1", Scalar(Float(r.x1))), Entry("maxnFormants", Scalar(Int(r.maxnFormants))),
     Entry("t", Vector(Floats(r.t))), Entry("formants", Matrix(Cells(r.formants))),
     Entry("bandwidths", Matrix(Cells(r.bandwidths))), Entry("intensity", Vector(Floats(r.intensity)))]
  }

  /** Without frames the as-written export fails; the corrected export succeeds. */
  lemma NoFramesNotExportable(r: Report, show: Num -> string)
    requires r.t == []
    ensures StructLiteralAsWritten(ReportDict(r), show).None?
  {
    assert ListToMatlabAsWritten(ReportDict(r)[6].value, show).None?;
  }

  /** What the scalar searches find: each keyword is searched for from the line of the
      previous match (the first from `from`), and the scan stops at the first keyword
      that is not found. `lines` and `vals` hold where each found keyword was and the
      number it carries; `complete` says whether every keyword was found. */
  datatype ScalarScan = ScalarScan(lines: seq<nat>, vals: seq<real>, complete: bool)

  function ScanScalars(f: seq<string>, from: nat, keys: seq<string>): (r: ScalarScan)
    ensures |r.lines| == |r.vals| <= |keys|
    ensures r.complete <==> |r.vals| == |keys|
    decreases |keys|
  {
    if keys == [] then ScalarScan([], [], true)
    else match FirstMatch(f, Field(keys[0]), from)
      case None => ScalarScan([], [], false)
      case Some(k) =>
        var rest := ScanScalars(f, k, keys[1..]);
        ScalarScan([k] + rest.lines, [FieldValue(Field(keys[0]), f[k])] + rest.vals, rest.complete)
  }

  /** Where the search for keyword `m` starts. */
  function PrevLine(from: nat, lines: seq<nat>, m: nat): nat
    requires m <= |lines|
  {
    if m == 0 then from else lines[m - 1]
  }

  lemma PrefixExtend<T>(s: seq<T>, k: nat, x: T)
    requires k < |s| && s[k] == x
    ensures s[..k + 1] == s[..k] + [x]
  {
  }

  lemma PrefixAll<T>(s: seq<T>, k: nat)
    requires k == |s|
    ensures s[..k] == s
  {
  }

  /** The `k`-th search of the scan finds a line exactly when the scan got that far. */
  lemma ScanScalarsNext(f: seq<string>, from: nat, keys: seq<string>, k: nat)
    requires k < |keys| && k <= |ScanScalars(f, from, keys).lines|
    ensures var r := ScanScalars(f, from, keys);
      var found := FirstMatch(f, Field(keys[k]), PrevLine(from, r.lines, k));
      (k < |r.lines| <==> found.Some?) &&
      (found.Some? ==> r.lines[k] == found.value && r.vals[k] == FieldValue(Field(keys[k]), f[found.value]))
  {
    var r := ScanScalars(f, from, keys);
    if k < |r.lines| {
      ScanScalarsAt(f, from, keys, k);
    } else {
      ScanScalarsStop(f, from, keys);
    }
  }

  /** One more keyword found: the scan's prefixes grow by the line and its number. */
  lemma ScanScalarsExtend(f: seq<string>, from: nat, keys: seq<string>, k: nat,
                          lines: seq<nat>, vals: seq<real>, at: nat)
    requires k < |keys| && k <= |ScanScalars(f, from, keys).lines|
    requires lines == ScanScalars(f, from, keys).lines[..k] && vals == ScanScalars(f, from, keys).vals[..k]
    requires FirstMatch(f, Field(keys[k]), PrevLine(from, ScanScalars(f, from, keys).lines, k)) == Some(at)
    ensures var r := ScanScalars(f, from, keys);
      k < |r.lines| && at < |f| && Matches(Field(keys[k]), f[at]) &&
      lines + [at] == r.lines[..k + 1] &&
      vals + [FieldValue(Field(keys[k]), f[at])] == r.vals[..k + 1] &&
      PrevLine(from, r.lines, k + 1) == at
  {
    var r := ScanScalars(f, from, keys);
    ScanScalarsNext(f, from, keys, k);
    PrefixExtend(r.lines, k, at);
    PrefixExtend(r.vals, k, FieldValue(Field(keys[k]), f[at]));
  }

  /** The scan ends where a keyword is missing or the keywords run out. */
  lemma ScanScalarsEnd(f: seq<string>, from: nat, keys: seq<string>, k: nat, lines: seq<nat>, vals: seq<real>)
    requires k <= |keys| && k <= |ScanScalars(f, from, keys).lines|
    requires lines == ScanScalars(f, from, keys).lines[..k] && vals == ScanScalars(f, from, keys).vals[..k]
    requires k < |keys| ==> FirstMatch(f, Field(keys[k]), PrevLine(from, ScanScalars(f, from, keys).lines, k)).None?
    ensures var r := ScanScalars(f, from, keys);
      lines == r.lines && vals == r.vals && (r.complete <==> k == |keys|)
  {
    var r := ScanScalars(f, from, keys);
    if k < |keys| {
      ScanScalarsNext(f, from, keys, k);
    }
    PrefixAll(r.lines, k);
    PrefixAll(r.vals, k);
  }

  /** What the scan promises for the `m`-th keyword it found: the line is the first
      line carrying that keyword at or after where its search started, which is at or
      after `from`, and the value is the number on that line. */
  lemma {:induction false} ScanScalarsAt(f: seq<string>, from: nat, keys: seq<string>, m: nat)
    requires m < |ScanScalars(f, from, keys).lines|
    ensures var r := ScanScalars(f, from, keys);
      from <= PrevLine(from, r.lines, m) <= r.lines[m] < |f| &&
      FirstMatch(f, Field(keys[m]), PrevLine(from, r.lines, m)) == Some(r.lines[m]) &&
      r.vals[m] == FieldValue(Field(keys[m]), f[r.lines[m]])
    decreases m
  {
    var k := FirstMatch(f, Field(keys[0]), from).value;
    var rest := ScanScalars(f, k, keys[1..]);
    if m > 0 {
      ScanScalarsAt(f, k, keys[1..], m - 1);
      assert keys[m] == keys[1..][m - 1];
      if m > 1 {
        assert PrevLine(from, [k] + rest.lines, m) == PrevLine(k, rest.lines, m - 1);
      }
    }
  }

  /** An incomplete scan stopped at a keyword that no line from there on carries. */
  lemma {:induction false} ScanScalarsStop(f: seq<string>, from: nat, keys: seq<string>)
    requires !ScanScalars(f, from, keys).complete
    ensures var r := ScanScalars(f, from, keys);
      FirstMatch(f, Field(keys[|r.lines|]), PrevLine(from, r.lines, |r.lines|)) == None
    decreases |keys|
  {
    match FirstMatch(f, Field(keys[0]), from)
    case None =>
    case Some(k) =>
      ScanScalarsStop(f, k, keys[1..]);
      var rest := ScanScalars(f, k, keys[1..]);
      assert keys[1 + |rest.lines|] == keys[1..][|rest.lines|];
      if |rest.lines| > 0 {
        assert PrevLine(from, [k] + rest.lines, 1 + |rest.lines|) == PrevLine(k, rest.lines, |rest.lines|);
      }
  }

  /** The first frames marker after line `pos`, or the end of the buffer: the bound of a
      frame's formant search. */
  function BoundAfter(f: seq<string>, pos: nat): (b: nat)
    ensures pos < b <= |f| || (b == |f| && pos >= |f|)
    ensures b < |f| ==> Matches(FramesMarker, f[b])
    ensures forall k {:trigger Matches(FramesMarker, f[k])} :: pos < k < b ==> !Matches(FramesMarker, f[k])
  {
    match FirstMatch(f, FramesMarker, pos + 1)
    case Some(k) => k
    case None => |f|
  }

  /** Python's `int(x)` on a float: truncation toward zero. */
  function PyInt(x: real): (r: int)
    ensures x >= 0.0 ==> r as real <= x < r as real + 1.0
    ensures x < 0.0 ==> r as real - 1.0 < x <= r as real
  {
    if x >= 0.0 then x.Floor else -((-x).Floor)
  }

  /** `[numpy.nan] * count`: a negative count gives the empty list. */
  function NaNs(count: int): (r: seq<Option<real>>)
    ensures |r| == (if count < 0 then 0 else count)
    ensures forall s :: 0 <= s < |r| ==> r[s] == None
  {
    seq(if count < 0 then 0 else count, _ => None)
  }

  /** No slot written yet: every source is `-1`. */
  function NoSources(count: int): (r: seq<int>)
    ensures |r| == (if count < 0 then 0 else count)
    ensures forall s :: 0 <= s < |r| ==> r[s] == -1
  {
    seq(if count < 0 then 0 else count, _ => -1)
  }

  /** The end of a frame's formant loop: where it left the cursor, the two rows and, for
      each slot, the line of the `formant [m]:` marker that last wrote it (`-1` if none);
      or the error that ended the parse. */
  datatype FormantScan =
    | Done(cursor: nat, formants: seq<Option<real>>, bandwidths: seq<Option<real>>, sources: seq<int>)
    | Failed(error: Error)

  /** The inner loop of `from_praat_text` from cursor `cur`, the frame's formant search
      bounded by `bound`: find the next `formant [m]:` marker; stop there when there is
      none (the cursor stays) or when it lies past `bound` (the cursor moves to `bound`);
      otherwise the turn goes on with that marker's write. Each turn passes on to the
      next, so the three functions of a turn call the loop again. */
  function FormantLoop(f: seq<string>, cur: nat, bound: nat,
                       fr: seq<Option<real>>, bw: seq<Option<real>>, src: seq<int>): (r: FormantScan)
    requires |fr| == |bw| == |src|
    ensures r.Done? ==> |r.formants| == |r.bandwidths| == |r.sources| == |fr|
    ensures r.Done? ==> r.cursor == bound || r.cursor == cur || cur < r.cursor < |f|
    decreases |f| - cur, 2
  {
    var found := FirstMatch(f, FormantMarker, cur);
    if found.None? then Done(cur, fr, bw, src)
    else if found.value > bound then Done(bound, fr, bw, src)
    else FormantWrite(f, found.value, MarkerNumber(FormantMarker, f[found.value]) - 1, bound, fr, bw, src)
  }

  /** Without a further `formant [m]:` marker the loop ends with the rows as they are. */
  lemma FormantLoopNone(f: seq<string>, cur: nat, bound: nat, fr: seq<Option<real>>, bw: seq<Option<real>>, src: seq<int>)
    requires |fr| == |bw| == |src| && FirstMatch(f, FormantMarker, cur).None?
    ensures FormantLoop(f, cur, bound, fr, bw, src) == Done(cur, fr, bw, src)
  {
  }

  /** At a next marker past the frame bound the loop stops, with the cursor on the bound. */
  lemma FormantLoopBeyond(f: seq<string>, cur: nat, bound: nat, fr: seq<Option<real>>, bw: seq<Option<real>>, src: seq<int>)
    requires |fr| == |bw| == |src| && FirstMatch(f, FormantMarker, cur).Some?
    requires FirstMatch(f, FormantMarker, cur).value > bound
    ensures FormantLoop(f, cur, bound, fr, bw, src) == Done(bound, fr, bw, src)
  {
  }

  /** At a next marker within the frame the loop writes that formant. */
  lemma FormantLoopWrite(f: seq<string>, cur: nat, bound: nat, fr: seq<Option<real>>, bw: seq<Option<real>>, src: seq<int>)
    requires |fr| == |bw| == |src| && FirstMatch(f, FormantMarker, cur).Some?
    requires FirstMatch(f, FormantMarker, cur).value <= bound
    ensures var m := FirstMatch(f, FormantMarker, cur).value;
      FormantLoop(f, cur, bound, fr, bw, src) == FormantWrite(f, m, MarkerNumber(FormantMarker, f[m]) - 1, bound, fr, bw, src)
  {
  }

  /** The turn after the marker on line `pm`, whose number less one is `index`: read the
      next frequency and write it into slot `index` with Python's index rules, then the
      bandwidth half. */
  function FormantWrite(f: seq<string>, pm: nat, index: int, bound: nat,
                        fr: seq<Option<real>>, bw: seq<Option<real>>, src: seq<int>): (r: FormantScan)
    requires pm < |f| && |fr| == |bw| == |src|
    ensures r.Done? ==> |r.formants| == |r.bandwidths| == |r.sources| == |fr|
    ensures r.Done? ==> r.cursor == bound || pm < r.cursor < |f|
    decreases |f| - pm, 1
  {
    var found := FirstMatch(f, Frequency, pm);
    if found.None? then Failed(MissingField(Frequency))
    else
      var slot := PySlot(index, |fr|);
      if slot.None? then Failed(SlotOutOfRange(index))
      else
        var s := slot.value;
        BandwidthWrite(f, found.value, s, bound, fr[s := Some(FieldValue(Frequency, f[found.value]))], bw, src[s := pm])
  }

  /** The bandwidth half of a turn, after the frequency on line `q` went into slot `s`:
      read the next bandwidth, write it into the same slot and go on from its line. */
  function BandwidthWrite(f: seq<string>, q: nat, s: nat, bound: nat,
                          fr: seq<Option<real>>, bw: seq<Option<real>>, src: seq<int>): (r: FormantScan)
    requires q < |f| && Matches(Frequency, f[q]) && s < |fr| == |bw| == |src|
    ensures r.Done? ==> |r.formants| == |r.bandwidths| == |r.sources| == |fr|
    ensures r.Done? ==> r.cursor == bound || q < r.cursor < |f|
    decreases |f| - q, 0
  {
    var found := FirstMatch(f, Bandwidth, q);
    if found.None? then Failed(MissingField(Bandwidth))
    else
      FrequencyNotBandwidth(f[q]);
      FormantLoop(f, found.value, bound, fr, bw[s := Some(FieldValue(Bandwidth, f[found.value]))], src)
  }

  /** Where a search that may fail leaves the cursor. */
  function MovedTo(found: Option<nat>, cur: nat): nat {
    if found.Some? then found.value else cur
  }

  /** The state of the outer loop: the data set so far and, per frame, its marker line
      (one per time stamp) and the sources of its slots (one per completed frame). */
  datatype FrameScan = FrameScan(report: Report, markers: seq<nat>, sources: seq<seq<int>>, error: Option<Error>)

  /** The outer loop of `from_praat_text` from cursor `cur`: find the next `frames [k]:`
      marker; when there is none the loop ends; otherwise append the time
      `x1 + (k-1)*dx` and go on with the frame's body, which calls the loop again. */
  function FrameLoop(f: seq<string>, cur: nat, acc: Report, markers: seq<nat>, sources: seq<seq<int>>): (r: FrameScan)
    decreases |f| - cur, 2
  {
    var found := FirstMatch(f, FramesMarker, cur);
    if found.None? then FrameScan(acc, markers, sources, None)
    else FrameBody(f, found.value, Stamped(acc, MarkerNumber(FramesMarker, f[found.value]) - 1), markers + [found.value], sources)
  }

  /** Without a further marker, the loop ends with what it has. */
  lemma FrameLoopNone(f: seq<string>, cur: nat, acc: Report, markers: seq<nat>, sources: seq<seq<int>>)
    requires FirstMatch(f, FramesMarker, cur).None?
    ensures FrameLoop(f, cur, acc, markers, sources) == FrameScan(acc, markers, sources, None)
  {
  }

  /** At the next marker, the loop is that frame's body, with its time appended. */
  lemma FrameLoopAt(f: seq<string>, cur: nat, acc: Report, markers: seq<nat>, sources: seq<seq<int>>)
    requires FirstMatch(f, FramesMarker, cur).Some?
    ensures var m := FirstMatch(f, FramesMarker, cur).value;
      FrameLoop(f, cur, acc, markers, sources) ==
        FrameBody(f, m, Stamped(acc, MarkerNumber(FramesMarker, f[m]) - 1), markers + [m], sources)
  {
  }

  /** The time of frame number `frame` (counted from 0): `x1 + frame*dx`. */
  function FrameTime(x1: real, dx: real, frame: int): real {
    x1 + frame as real * dx
  }

  /** `t.append(x1 + frame*dx)` for frame number `frame`. */
  function Stamped(acc: Report, frame: int): (r: Report)
    ensures r.t == acc.t + [FrameTime(acc.x1, acc.dx, frame)]
    ensures r.(t := acc.t) == acc
  {
    acc.(t := acc.t + [FrameTime(acc.x1, acc.dx, frame)])
  }

  /** The frame after its marker on line `m`: read the next intensity and append it,
      then the formants. */
  function FrameBody(f: seq<string>, m: nat, acc: Report, markers: seq<nat>, sources: seq<seq<int>>): (r: FrameScan)
    requires m < |f| && Matches(FramesMarker, f[m])
    decreases |f| - m, 1
  {
    var found := FirstMatch(f, Intensity, m);
    if found.None? then FrameScan(acc, markers, sources, Some(MissingField(Intensity)))
    else
      FramesNotIntensity(f[m]);
      FormantsOf(f, found.value, acc.(intensity := acc.intensity + [FieldValue(Intensity, f[found.value])]), markers, sources)
  }

  /** The formants of the frame whose intensity is on line `il`: bound the search by the
      next marker after `il`, move to the next `formant []:` header (if any) from `il`,
      run the formant loop on rows of `maxnFormants` missing values, append both rows
      and go on with the outer loop from where the formant loop left the cursor. */
  function FormantsOf(f: seq<string>, il: nat, acc: Report, markers: seq<nat>, sources: seq<seq<int>>): (r: FrameScan)
    requires il < |f|
    decreases |f| + 1 - il, 0
  {
    var maxn := acc.maxnFormants;
    var scan := FormantLoop(f, MovedTo(FirstMatch(f, FormantArray, il), il), BoundAfter(f, il), NaNs(maxn), NaNs(maxn), NoSources(maxn));
    if scan.Failed? then FrameScan(acc, markers, sources, Some(scan.error))
    else
      FrameLoop(f, scan.cursor, acc.(formants := acc.formants + [scan.formants], bandwidths := acc.bandwidths + [scan.bandwidths]),
                markers, sources + [scan.sources])
  }

  /** The six scalars read from line `from`, and (in `lines`) where the cursor is after
      each read. When the cursor is already past the end and an earlier match with a
      group is left over, all six reads take its number and the cursor stays. */
  function ScalarsRead(f: seq<string>, from: nat, last: Option<MatchResult>): (r: ScalarScan)
    ensures |r.lines| == |r.vals| <= |ScalarKeys|
    ensures r.complete <==> |r.vals| == |ScalarKeys|
  {
    if Stale(from, |f|, last) then
      ScalarScan(seq(|ScalarKeys|, _ => from), seq(|ScalarKeys|, _ => NumeralValue(last.value.group.value)), true)
    else ScanScalars(f, from, ScalarKeys)
  }

  /** What a parse of the stripped lines `f` yields: the error that ended it, if any; the
      data dictionary it leaves (`None` when the header is rejected, which leaves the
      previous data in place); and the frame scan when the parse got that far. */
  datatype ParseOutcome = ParseOutcome(failure: Option<Error>, dict: Option<seq<Entry>>, frames: Option<FrameScan>)

  function ParseReport(f: seq<string>, last: Option<MatchResult>): (out: ParseOutcome)
    ensures out.dict.None? <==> HeaderError(f).Some?
    ensures HeaderError(f).Some? ==> out.failure == HeaderErrorAsWritten(f)
    ensures out.failure.None? ==> out.frames.Some? && out.dict == Some(ReportDict(out.frames.value.report))
  {
    match HeaderErrorAsWritten(f)
    case Some(e) => ParseOutcome(Some(e), None, None)
    case None =>
      var sc := ScalarsRead(f, 2, last);
      if !sc.complete then
        ParseOutcome(Some(MissingField(Field(ScalarKeys[|sc.vals|]))), Some(ScalarDict(sc.vals)), None)
      else
        var v := sc.vals;
        var first := Report(v[0], v[1], PyInt(v[2]), v[3], v[4], PyInt(v[5]), [], [], [], []);
        var start := PrevLine(2, sc.lines, |sc.lines|);
        var scan := FrameLoop(f, MovedTo(FirstMatch(f, FramesArray, start), start), first, [], []);
        ParseOutcome(scan.error, Some(ReportDict(scan.report)), Some(scan))
  }

  /** Past the header, the parse is the scalar read and then the frame loop from the
      `frames []:` header after the last scalar. */
  lemma ParseReportAfterHeader(f: seq<string>, last: Option<MatchResult>)
    requires HeaderError(f).None?
    ensures var sc := ScalarsRead(f, 2, last);
      !sc.complete ==> ParseReport(f, last) == ParseOutcome(Some(MissingField(Field(ScalarKeys[|sc.vals|]))), Some(ScalarDict(sc.vals)), None)
    ensures var sc := ScalarsRead(f, 2, last); var v := sc.vals;
      sc.complete ==>
        var start := PrevLine(2, sc.lines, |sc.lines|);
        var scan := FrameLoop(f, MovedTo(FirstMatch(f, FramesArray, start), start),
                              Report(v[0], v[1], PyInt(v[2]), v[3], v[4], PyInt(v[5]), [], [], [], []), [], []);
        ParseReport(f, last) == ParseOutcome(scan.error, Some(ReportDict(scan.report)), Some(scan))
  {
  }

  /** The cursor is past the end and the last match left by an earlier call carries a group. */
  predicate Stale(i: int, n: int, lastMatch: Option<MatchResult>) {
    i >= n && lastMatch.Some? && lastMatch.value.group.Some?
  }
}
