/** What the frame loop of the Formant report parser guarantees about the data set: one
    time stamp per visited `frames [k]:` marker at `x1 + (k-1)*dx`, the intensity after
    each marker, and per completed frame two rows of `maxnFormants` slots, each written
    slot coming from a `formant [m]:` marker strictly inside that frame, and each
    marker the frame's formant loop turned at filling its slot. */
module FormantFrames {
  import opened Wrappers
  import opened FormantPatterns
  import opened FormantReport
  import opened FormantSlots

  /** Where frame `j` ends: the next visited marker, or `hi` for the last one. */
  function End(markers: seq<nat>, j: nat, hi: nat): nat
    requires j < |markers|
  {
    if j + 1 < |markers| then markers[j + 1] else hi
  }

  /** The length of a row of `maxn` slots: `[nan] * maxn`. */
  function Width(maxn: int): nat {
    if maxn < 0 then 0 else maxn
  }

  /** `v` is the number of the first intensity at or after line `m`. */
  predicate IntensityOf(f: seq<string>, m: nat, v: real) {
    var q := FirstMatch(f, Intensity, m);
    q.Some? && v == FieldValue(Intensity, f[q.value])
  }

  /** How far the formant search of the frame whose marker is line `m` may reach: the
      first `frames [k]:` marker after the frame's intensity line, or the end of the
      buffer. */
  function FrameLimit(f: seq<string>, m: nat): nat {
    var q := FirstMatch(f, Intensity, m);
    if q.Some? then BoundAfter(f, q.value) else |f|
  }

  /** No source line in `src` lies past line `b`. */
  predicate AtMost(src: seq<int>, b: int) {
    forall s :: 0 <= s < |src| ==> src[s] <= b
  }

  /** The `formant [m]:` markers the formant loop of the frame whose marker is line `m`
      turns at, for rows of `n` slots: the loop runs from the first `formant []:` header
      after the frame's intensity line (or that line) up to the next `frames [k]:` marker. */
  function FrameVisits(f: seq<string>, m: nat, n: nat): (r: seq<nat>)
    ensures forall k :: 0 <= k < |r| ==> r[k] < |f| && Matches(FormantMarker, f[r[k]])
  {
    var il := FirstMatch(f, Intensity, m);
    if il.None? then []
    else Visited(f, MovedTo(FirstMatch(f, FormantArray, il.value), il.value), BoundAfter(f, il.value), n)
  }

  /** The rows of the frame whose marker is line `m`: every marker its formant loop
      turned at filled its slot, and every written slot's source is one of them. */
  predicate RowFills(f: seq<string>, m: nat, fr: seq<Option<real>>, bw: seq<Option<real>>, src: seq<int>) {
    var vis := FrameVisits(f, m, |src|);
    (forall k :: 0 <= k < |vis| ==> Fills(f, vis[k], fr, bw, src)) &&
    (forall s :: 0 <= s < |src| ==> src[s] == -1 || src[s] in vis)
  }

  /** The scalars of the data set, which the frame loop never changes. */
  predicate SameScalars(a: Report, b: Report) {
    a.xmin == b.xmin && a.xmax == b.xmax && a.nx == b.nx && a.dx == b.dx && a.x1 == b.x1 && a.maxnFormants == b.maxnFormants
  }

  /** Marker `j` is a `frames [k]:` line and its time stamp is `x1 + (k-1)*dx`. */
  predicate Stamp(f: seq<string>, t: seq<real>, x1: real, dx: real, markers: seq<nat>, j: nat)
    requires j < |markers| == |t|
  {
    markers[j] < |f| && Matches(FramesMarker, f[markers[j]]) &&
    t[j] == FrameTime(x1, dx, MarkerNumber(FramesMarker, f[markers[j]]) - 1)
  }

  /** The rows of completed frame `j` have `maxnFormants` slots, all sound for the lines
      strictly after its marker and up to where the frame ends. */
  predicate RowsSound(f: seq<string>, formants: seq<seq<Option<real>>>, bandwidths: seq<seq<Option<real>>>, maxn: int,
                      markers: seq<nat>, sources: seq<seq<int>>, hi: nat, j: nat)
    requires j < |sources| == |formants| == |bandwidths| && j < |markers|
  {
    |sources[j]| == Width(maxn) &&
    SlotsSound(f, markers[j] + 1, End(markers, j, hi), formants[j], bandwidths[j], sources[j]) &&
    AtMost(sources[j], FrameLimit(f, markers[j])) &&
    RowFills(f, markers[j], formants[j], bandwidths[j], sources[j])
  }

  /** The state of the frame loop: the markers visited so far in increasing order, their
      time stamps, the intensities read so far (one per marker but perhaps the last) and
      the rows of the completed frames (one per marker but perhaps the last). */
  predicate Closed(f: seq<string>, acc: Report, markers: seq<nat>, sources: seq<seq<int>>, hi: nat) {
    |sources| == |acc.formants| == |acc.bandwidths| <= |acc.intensity| <= |markers| == |acc.t| <= |sources| + 1 &&
    (forall j :: 0 <= j < |markers| ==> Stamp(f, acc.t, acc.x1, acc.dx, markers, j)) &&
    (forall j, k :: 0 <= j < k < |markers| ==> markers[j] < markers[k]) &&
    (forall j :: 0 <= j < |acc.intensity| ==> IntensityOf(f, markers[j], acc.intensity[j])) &&
    (forall j :: 0 <= j < |sources| ==> RowsSound(f, acc.formants, acc.bandwidths, acc.maxnFormants, markers, sources, hi, j))
  }

  /** What the frame loop ends with: a `Closed` state whose last frame may reach the end
      of the buffer, the scalars of `base`, and, when no error ended the loop, one
      intensity and one pair of rows per visited marker. */
  predicate ScanSound(f: seq<string>, r: FrameScan, base: Report) {
    Closed(f, r.report, r.markers, r.sources, |f|) && SameScalars(r.report, base) &&
    (r.error.None? ==> |r.sources| == |r.report.intensity| == |r.markers|)
  }

  /** Only the last frame's end depends on `hi`, and its sources are lines of `f`. */
  lemma ClosedWiden(f: seq<string>, acc: Report, markers: seq<nat>, sources: seq<seq<int>>, hi: nat, hi': nat)
    requires Closed(f, acc, markers, sources, hi) && (hi <= hi' || hi' == |f|)
    ensures Closed(f, acc, markers, sources, hi')
  {
    forall j | 0 <= j < |sources|
      ensures RowsSound(f, acc.formants, acc.bandwidths, acc.maxnFormants, markers, sources, hi', j)
    {
      assert RowsSound(f, acc.formants, acc.bandwidths, acc.maxnFormants, markers, sources, hi, j);
      SlotsWiden(f, markers[j] + 1, End(markers, j, hi), markers[j] + 1, End(markers, j, hi'),
                 acc.formants[j], acc.bandwidths[j], sources[j]);
    }
  }

  /** Visiting a marker `m` at or after the cursor appends its time stamp. */
  lemma ClosedStamp(f: seq<string>, acc: Report, markers: seq<nat>, sources: seq<seq<int>>, cur: nat, m: nat)
    requires Closed(f, acc, markers, sources, cur) && |sources| == |acc.intensity| == |markers|
    requires forall j :: 0 <= j < |markers| ==> markers[j] < cur
    requires cur <= m < |f| && Matches(FramesMarker, f[m])
    ensures Closed(f, Stamped(acc, MarkerNumber(FramesMarker, f[m]) - 1), markers + [m], sources, m)
  {
    var acc' := Stamped(acc, MarkerNumber(FramesMarker, f[m]) - 1);
    var markers' := markers + [m];
    assert acc'.x1 == acc.x1 && acc'.dx == acc.dx && acc'.formants == acc.formants && acc'.bandwidths == acc.bandwidths;
    forall j | 0 <= j < |markers'|
      ensures Stamp(f, acc'.t, acc'.x1, acc'.dx, markers', j)
    {
      if j < |markers| {
        assert Stamp(f, acc.t, acc.x1, acc.dx, markers, j);
        assert acc'.t[j] == acc.t[j];
      } else {
        assert acc'.t[j] == FrameTime(acc.x1, acc.dx, MarkerNumber(FramesMarker, f[m]) - 1);
      }
    }
    forall j | 0 <= j < |sources|
      ensures RowsSound(f, acc'.formants, acc'.bandwidths, acc'.maxnFormants, markers', sources, m, j)
    {
      assert RowsSound(f, acc.formants, acc.bandwidths, acc.maxnFormants, markers, sources, cur, j);
      SlotsWiden(f, markers[j] + 1, End(markers, j, cur), markers[j] + 1, End(markers', j, m),
                 acc.formants[j], acc.bandwidths[j], sources[j]);
    }
  }

  /** Reading the intensity of the last marker appends it. */
  lemma ClosedIntensity(f: seq<string>, acc: Report, markers: seq<nat>, sources: seq<seq<int>>, hi: nat, hi': nat, v: real)
    requires Closed(f, acc, markers, sources, hi) && |markers| == |sources| + 1 == |acc.intensity| + 1
    requires IntensityOf(f, markers[|markers| - 1], v)
    ensures Closed(f, acc.(intensity := acc.intensity + [v]), markers, sources, hi')
  {
    var acc' := acc.(intensity := acc.intensity + [v]);
    assert acc'.t == acc.t && acc'.x1 == acc.x1 && acc'.dx == acc.dx && acc'.formants == acc.formants && acc'.bandwidths == acc.bandwidths;
    forall j | 0 <= j < |sources|
      ensures RowsSound(f, acc'.formants, acc'.bandwidths, acc'.maxnFormants, markers, sources, hi', j)
    {
      assert RowsSound(f, acc.formants, acc.bandwidths, acc.maxnFormants, markers, sources, hi, j);
    }
  }

  /** Completing the last frame appends its two rows and their sources. */
  lemma ClosedRows(f: seq<string>, acc: Report, markers: seq<nat>, sources: seq<seq<int>>, hi: nat,
                   fr: seq<Option<real>>, bw: seq<Option<real>>, src: seq<int>, cursor: nat)
    requires Closed(f, acc, markers, sources, hi) && |markers| == |sources| + 1 == |acc.intensity|
    requires |src| == Width(acc.maxnFormants) && SlotsSound(f, markers[|markers| - 1] + 1, cursor, fr, bw, src)
    requires AtMost(src, FrameLimit(f, markers[|markers| - 1]))
    requires RowFills(f, markers[|markers| - 1], fr, bw, src)
    ensures Closed(f, acc.(formants := acc.formants + [fr], bandwidths := acc.bandwidths + [bw]), markers, sources + [src], cursor)
  {
    var acc' := acc.(formants := acc.formants + [fr], bandwidths := acc.bandwidths + [bw]);
    var sources' := sources + [src];
    assert acc'.t == acc.t && acc'.x1 == acc.x1 && acc'.dx == acc.dx && acc'.intensity == acc.intensity;
    RowsAppend(f, acc.formants, acc.bandwidths, acc.maxnFormants, markers, sources, hi, fr, bw, src, cursor);
  }

  lemma RowsAppend(f: seq<string>, formants: seq<seq<Option<real>>>, bandwidths: seq<seq<Option<real>>>, maxn: int,
                   markers: seq<nat>, sources: seq<seq<int>>, hi: nat,
                   fr: seq<Option<real>>, bw: seq<Option<real>>, src: seq<int>, cursor: nat)
    requires |sources| == |formants| == |bandwidths| && |markers| == |sources| + 1
    requires forall j :: 0 <= j < |sources| ==> RowsSound(f, formants, bandwidths, maxn, markers, sources, hi, j)
    requires |src| == Width(maxn) && SlotsSound(f, markers[|markers| - 1] + 1, cursor, fr, bw, src)
    requires AtMost(src, FrameLimit(f, markers[|markers| - 1]))
    requires RowFills(f, markers[|markers| - 1], fr, bw, src)
    ensures forall j :: 0 <= j < |sources| + 1 ==> RowsSound(f, formants + [fr], bandwidths + [bw], maxn, markers, sources + [src], cursor, j)
  {
    forall j | 0 <= j < |sources| + 1
      ensures RowsSound(f, formants + [fr], bandwidths + [bw], maxn, markers, sources + [src], cursor, j)
    {
      if j < |sources| {
        assert RowsSound(f, formants, bandwidths, maxn, markers, sources, hi, j);
      }
    }
  }

  /** The frame loop keeps `Closed` and the scalars; a loop that ends without an error has
      completed every frame it visited. */
  lemma {:induction false} FrameLoopClosed(f: seq<string>, cur: nat, acc: Report, markers: seq<nat>, sources: seq<seq<int>>, base: Report)
    requires SameScalars(acc, base)
    requires Closed(f, acc, markers, sources, cur) && |sources| == |acc.intensity| == |markers|
    requires forall j :: 0 <= j < |markers| ==> markers[j] < cur
    ensures ScanSound(f, FrameLoop(f, cur, acc, markers, sources), base)
    decreases |f| - cur, 2
  {
    var found := FirstMatch(f, FramesMarker, cur);
    if found.None? {
      FrameLoopNone(f, cur, acc, markers, sources);
      ClosedWiden(f, acc, markers, sources, cur, |f|);
    } else {
      var m := found.value;
      FrameLoopAt(f, cur, acc, markers, sources);
      ClosedStamp(f, acc, markers, sources, cur, m);
      FrameBodyClosed(f, m, Stamped(acc, MarkerNumber(FramesMarker, f[m]) - 1), markers + [m], sources, base);
    }
  }

  lemma {:induction false} FrameBodyClosed(f: seq<string>, m: nat, acc: Report, markers: seq<nat>, sources: seq<seq<int>>, base: Report)
    requires SameScalars(acc, base)
    requires m < |f| && Matches(FramesMarker, f[m])
    requires Closed(f, acc, markers, sources, m) && |markers| == |sources| + 1 == |acc.intensity| + 1
    requires markers[|markers| - 1] == m
    ensures ScanSound(f, FrameBody(f, m, acc, markers, sources), base)
    decreases |f| - m, 1
  {
    var found := FirstMatch(f, Intensity, m);
    if found.None? {
      ClosedWiden(f, acc, markers, sources, m, |f|);
    } else {
      var il := found.value;
      FramesNotIntensity(f[m]);
      var v := FieldValue(Intensity, f[il]);
      assert FrameBody(f, m, acc, markers, sources) == FormantsOf(f, il, acc.(intensity := acc.intensity + [v]), markers, sources);
      ClosedIntensity(f, acc, markers, sources, m, il, v);
      FormantsOfClosed(f, il, acc.(intensity := acc.intensity + [v]), markers, sources, base);
    }
  }

  lemma {:induction false} FormantsOfClosed(f: seq<string>, il: nat, acc: Report, markers: seq<nat>, sources: seq<seq<int>>, base: Report)
    requires SameScalars(acc, base)
    requires il < |f| && |markers| == |sources| + 1 == |acc.intensity| && markers[|markers| - 1] < il
    requires FirstMatch(f, Intensity, markers[|markers| - 1]) == Some(il)
    requires Closed(f, acc, markers, sources, il)
    ensures ScanSound(f, FormantsOf(f, il, acc, markers, sources), base)
    decreases |f| + 1 - il, 0
  {
    var maxn := acc.maxnFormants;
    var lo := MovedTo(FirstMatch(f, FormantArray, il), il);
    var scan := FormantLoop(f, lo, BoundAfter(f, il), NaNs(maxn), NaNs(maxn), NoSources(maxn));
    if scan.Failed? {
      ClosedWiden(f, acc, markers, sources, il, |f|);
    } else {
      var cursor, acc', src := FormantsOfRow(f, il, acc, markers, sources);
      FrameLoopClosed(f, cursor, acc', markers, sources + [src], base);
    }
  }

  /** A frame whose formant loop completes adds one closed row and hands the frame loop
      the cursor the formant loop leaves. */
  lemma FormantsOfRow(f: seq<string>, il: nat, acc: Report, markers: seq<nat>, sources: seq<seq<int>>)
    returns (cursor: nat, acc': Report, src: seq<int>)
    requires il < |f| && |markers| == |sources| + 1 == |acc.intensity| && markers[|markers| - 1] < il
    requires FirstMatch(f, Intensity, markers[|markers| - 1]) == Some(il)
    requires Closed(f, acc, markers, sources, il)
    requires FormantLoop(f, MovedTo(FirstMatch(f, FormantArray, il), il), BoundAfter(f, il),
                         NaNs(acc.maxnFormants), NaNs(acc.maxnFormants), NoSources(acc.maxnFormants)).Done?
    ensures FormantsOf(f, il, acc, markers, sources) == FrameLoop(f, cursor, acc', markers, sources + [src])
    ensures SameScalars(acc', acc) && il <= cursor
    ensures Closed(f, acc', markers, sources + [src], cursor) && |sources + [src]| == |acc'.intensity| == |markers|
    ensures forall j :: 0 <= j < |markers| ==> markers[j] < cursor
  {
    var maxn := acc.maxnFormants;
    var lo := MovedTo(FirstMatch(f, FormantArray, il), il);
    var bound := BoundAfter(f, il);
    var scan := FormantLoop(f, lo, bound, NaNs(maxn), NaNs(maxn), NoSources(maxn));
    var m := markers[|markers| - 1];
    EmptySlotsSound(f, lo, Min(lo, bound), maxn);
    FormantLoopSound(f, lo, bound, lo, NaNs(maxn), NaNs(maxn), NoSources(maxn));
    cursor := scan.cursor;
    src := scan.sources;
    SlotsWiden(f, lo, Min(cursor, bound), m + 1, cursor, scan.formants, scan.bandwidths, scan.sources);
    assert AtMost(src, FrameLimit(f, m)) by {
      forall s | 0 <= s < |src|
        ensures src[s] <= FrameLimit(f, m)
      {
        assert SlotSound(f, lo, Min(cursor, bound), |src|, s, scan.formants[s], scan.bandwidths[s], src[s]);
      }
    }
    FormantLoopFills(f, lo, bound, NaNs(maxn), NaNs(maxn), NoSources(maxn));
    assert FrameVisits(f, m, |src|) == Visited(f, lo, bound, |src|);
    assert RowFills(f, m, scan.formants, scan.bandwidths, src);
    ClosedRows(f, acc, markers, sources, il, scan.formants, scan.bandwidths, scan.sources, cursor);
    acc' := acc.(formants := acc.formants + [scan.formants], bandwidths := acc.bandwidths + [scan.bandwidths]);
  }
}
