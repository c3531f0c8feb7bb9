/** What a parse of a Formant report guarantees, stated on `ParseReport`, the reference
    that `Formants.FromPraatText` is proved to follow. */
module FormantProperties {
  import opened Wrappers
  import opened FormantPatterns
  import opened MatlabLiteral
  import opened FormantReport
  import opened FormantSlots
  import opened FormantFrames

  /** The lines `lines` all lie at or after `from` and come in order. */
  predicate InOrderFrom(from: nat, lines: seq<nat>) {
    (forall a :: 0 <= a < |lines| ==> from <= lines[a]) &&
    (forall a, b :: 0 <= a <= b < |lines| ==> lines[a] <= lines[b])
  }

  /** The six scalar searches find their lines in order: each at or after the previous one. */
  lemma {:induction false} ScanScalarsOrdered(f: seq<string>, from: nat, keys: seq<string>)
    ensures InOrderFrom(from, ScanScalars(f, from, keys).lines)
    decreases |keys|
  {
    if keys != [] {
      var found := FirstMatch(f, Field(keys[0]), from);
      if found.Some? {
        var k := found.value;
        ScanScalarsOrdered(f, k, keys[1..]);
        var rest := ScanScalars(f, k, keys[1..]).lines;
        assert ScanScalars(f, from, keys).lines == [k] + rest;
        OrderedCons(from, k, rest);
      }
    }
  }

  /** A line at or after `from` put before lines that come at or after it, in order. */
  lemma OrderedCons(from: nat, k: nat, rest: seq<nat>)
    requires from <= k && InOrderFrom(k, rest)
    ensures InOrderFrom(from, [k] + rest)
  {
  }

  /** The data set before the first frame: the six scalars, `nx` and `maxnFormants`
      truncated to integers, and four empty lists. */
  function FirstReport(v: seq<real>): (r: Report)
    requires |v| == |ScalarKeys|
    ensures r.t == [] && r.formants == [] && r.bandwidths == [] && r.intensity == []
  {
    Report(v[0], v[1], PyInt(v[2]), v[3], v[4], PyInt(v[5]), [], [], [], [])
  }

  /** A parse reaches the frames exactly when both headers are right and all six scalars
      are found; the frame loop then leaves every key of the data set in place and keeps
      the scalars as read, and everything `Closed` and `ScanSound` state holds of what
      it built. */
  lemma ParseReportSound(f: seq<string>, last: Option<MatchResult>)
    ensures var out := ParseReport(f, last);
      out.frames.Some? <==> HeaderError(f).None? && ScalarsRead(f, 2, last).complete
    ensures var out := ParseReport(f, last);
      out.frames.Some? ==>
        Keys(out.dict.value) == ReportKeys && out.failure == out.frames.value.error &&
        ScanSound(f, out.frames.value, FirstReport(ScalarsRead(f, 2, last).vals))
  {
    var out := ParseReport(f, last);
    if HeaderError(f).None? {
      var sc := ScalarsRead(f, 2, last);
      if sc.complete {
        var first := FirstReport(sc.vals);
        var start := PrevLine(2, sc.lines, |sc.lines|);
        var cur := MovedTo(FirstMatch(f, FramesArray, start), start);
        assert Closed(f, first, [], [], cur);
        FrameLoopClosed(f, cur, first, [], [], first);
        assert out.frames == Some(FrameLoop(f, cur, first, [], []));
      }
    }
  }

  /** In a frame scan that ran to its end, frame `j` of the data set has one time stamp,
      one intensity and two rows of `maxnFormants` slots; slot `s` holds a frequency
      exactly when it holds a bandwidth, and then both were read after a `formant [s+1]:`
      marker (or `formant [0]:` for the last slot) that lies strictly after the frame's
      own `frames [k]:` marker and no later than the next visited one (or the end of
      the buffer), nor than the first marker after the frame's intensity line. */
  lemma FinishedSlot(f: seq<string>, fs: FrameScan, base: Report, j: nat, s: nat)
    requires ScanSound(f, fs, base) && fs.error.None? && j < |fs.markers|
    ensures var r := fs.report;
      |r.t| == |r.intensity| == |r.formants| == |r.bandwidths| == |fs.sources| == |fs.markers| &&
      |r.formants[j]| == |r.bandwidths[j]| == |fs.sources[j]| == Width(r.maxnFormants) &&
      (s < Width(r.maxnFormants) ==>
        (r.formants[j][s].Some? <==> r.bandwidths[j][s].Some?) &&
        (r.formants[j][s].Some? ==>
          var p := fs.sources[j][s];
          fs.markers[j] < p <= End(fs.markers, j, |f|) && p <= FrameLimit(f, fs.markers[j]) && SlotSource(f, p, s, Width(r.maxnFormants)) &&
          FrequencyOf(f, p, r.formants[j][s]) && BandwidthOf(f, p, r.bandwidths[j][s])))
  {
    var r := fs.report;
    assert RowsSound(f, r.formants, r.bandwidths, r.maxnFormants, fs.markers, fs.sources, |f|, j);
    if s < Width(r.maxnFormants) {
      assert AtMost(fs.sources[j], FrameLimit(f, fs.markers[j]));
      assert SlotSound(f, fs.markers[j] + 1, End(fs.markers, j, |f|), |fs.sources[j]|, s,
                       r.formants[j][s], r.bandwidths[j][s], fs.sources[j][s]);
    }
  }

  /** ... and slot `s` of frame `j` holds its two values exactly when one of the
      `formant [m]:` markers the frame's formant loop turned at names the slot; the
      values are then those read after the last such marker. */
  lemma FinishedSlotFilled(f: seq<string>, fs: FrameScan, base: Report, j: nat, s: nat)
    requires ScanSound(f, fs, base) && fs.error.None? && j < |fs.markers|
    requires s < Width(fs.report.maxnFormants)
    ensures var r := fs.report; var n := Width(r.maxnFormants); var vis := FrameVisits(f, fs.markers[j], n);
      j < |r.formants| == |r.bandwidths| == |fs.sources| && |r.formants[j]| == |r.bandwidths[j]| == |fs.sources[j]| == n &&
      (r.formants[j][s].Some? <==> exists k :: 0 <= k < |vis| && FormantSlot(f[vis[k]], n) == Some(s)) &&
      (r.bandwidths[j][s].Some? <==> r.formants[j][s].Some?) &&
      (r.formants[j][s].Some? ==>
        var p := fs.sources[j][s];
        p in vis && FormantSlot(f[p], n) == Some(s) &&
        (forall k :: 0 <= k < |vis| && FormantSlot(f[vis[k]], n) == Some(s) ==> vis[k] <= p) &&
        FrequencyOf(f, p, r.formants[j][s]) && BandwidthOf(f, p, r.bandwidths[j][s]))
  {
    var r := fs.report;
    var n := Width(r.maxnFormants);
    var vis := FrameVisits(f, fs.markers[j], n);
    assert RowsSound(f, r.formants, r.bandwidths, r.maxnFormants, fs.markers, fs.sources, |f|, j);
    var p := fs.sources[j][s];
    assert SlotSound(f, fs.markers[j] + 1, End(fs.markers, j, |f|), n, s, r.formants[j][s], r.bandwidths[j][s], p);
    forall k | 0 <= k < |vis| && FormantSlot(f[vis[k]], n) == Some(s)
      ensures r.formants[j][s].Some? && vis[k] <= p
    {
      assert Fills(f, vis[k], r.formants[j], r.bandwidths[j], fs.sources[j]);
    }
    if r.formants[j][s].Some? {
      var k :| 0 <= k < |vis| && vis[k] == p;
      assert FormantSlot(f[vis[k]], n) == Some(s);
    }
  }

  /** ... and its time stamp is `x1 + (k-1)*dx` for the number `k` of its marker, its
      intensity the first one at or after that marker, and the markers come in the order
      of the lines. */
  lemma FinishedFrame(f: seq<string>, fs: FrameScan, base: Report, j: nat)
    requires ScanSound(f, fs, base) && fs.error.None? && j < |fs.markers|
    ensures var r := fs.report; var m := fs.markers[j];
      j < |r.t| && j < |r.intensity| && m < |f| && Matches(FramesMarker, f[m]) &&
      r.t[j] == r.x1 + (MarkerNumber(FramesMarker, f[m]) - 1) as real * r.dx &&
      IntensityOf(f, m, r.intensity[j]) &&
      (j + 1 < |fs.markers| ==> m < fs.markers[j + 1])
  {
    var r := fs.report;
    assert Stamp(f, r.t, r.x1, r.dx, fs.markers, j);
  }
  /** A frame whose formant loop stops no later than its bound (the first `frames [k]:`
      marker after the intensity line `il`) hands the outer loop a cursor from which the
      next marker found is that bound, so no frame is skipped: the outer loop goes on
      with the frame at the bound, or ends when the bound is the end of the buffer. */
  lemma FormantsOfResumes(f: seq<string>, il: nat, acc: Report, markers: seq<nat>, sources: seq<seq<int>>)
    requires il < |f| && Matches(Intensity, f[il])
    requires var maxn := acc.maxnFormants;
      var scan := FormantLoop(f, MovedTo(FirstMatch(f, FormantArray, il), il), BoundAfter(f, il), NaNs(maxn), NaNs(maxn), NoSources(maxn));
      scan.Done? && scan.cursor <= BoundAfter(f, il)
    ensures var maxn := acc.maxnFormants; var b := BoundAfter(f, il);
      var scan := FormantLoop(f, MovedTo(FirstMatch(f, FormantArray, il), il), b, NaNs(maxn), NaNs(maxn), NoSources(maxn));
      FirstMatch(f, FramesMarker, scan.cursor) == (if b < |f| then Some(b) else None)
    ensures var maxn := acc.maxnFormants; var b := BoundAfter(f, il);
      var scan := FormantLoop(f, MovedTo(FirstMatch(f, FormantArray, il), il), b, NaNs(maxn), NaNs(maxn), NoSources(maxn));
      var acc' := acc.(formants := acc.formants + [scan.formants], bandwidths := acc.bandwidths + [scan.bandwidths]);
      FormantsOf(f, il, acc, markers, sources) ==
        if b < |f| then FrameBody(f, b, Stamped(acc', MarkerNumber(FramesMarker, f[b]) - 1), markers + [b], sources + [scan.sources])
        else FrameScan(acc', markers, sources + [scan.sources], None)
  {
    var maxn := acc.maxnFormants;
    var b := BoundAfter(f, il);
    var scan := FormantLoop(f, MovedTo(FirstMatch(f, FormantArray, il), il), b, NaNs(maxn), NaNs(maxn), NoSources(maxn));
    var acc' := acc.(formants := acc.formants + [scan.formants], bandwidths := acc.bandwidths + [scan.bandwidths]);
    assert FormantsOf(f, il, acc, markers, sources) == FrameLoop(f, scan.cursor, acc', markers, sources + [scan.sources]);
    FrameLoopResumes(f, il, scan.cursor, acc', markers, sources + [scan.sources]);
  }

  /** The outer loop from a cursor between the intensity line `il` and its bound goes
      on with the frame at the bound, or ends when the bound is the end of the buffer. */
  lemma FrameLoopResumes(f: seq<string>, il: nat, c: nat, acc: Report, markers: seq<nat>, sources: seq<seq<int>>)
    requires il < |f| && Matches(Intensity, f[il]) && il <= c <= BoundAfter(f, il)
    ensures var b := BoundAfter(f, il);
      FirstMatch(f, FramesMarker, c) == (if b < |f| then Some(b) else None)
    ensures var b := BoundAfter(f, il);
      FrameLoop(f, c, acc, markers, sources) ==
        if b < |f| then FrameBody(f, b, Stamped(acc, MarkerNumber(FramesMarker, f[b]) - 1), markers + [b], sources)
        else FrameScan(acc, markers, sources, None)
  {
    NextFrameAt(f, il, c);
    if BoundAfter(f, il) < |f| {
      FrameLoopAt(f, c, acc, markers, sources);
    } else {
      FrameLoopNone(f, c, acc, markers, sources);
    }
  }

  /** From any line between the intensity line `il` and its bound, the next
      `frames [k]:` line is the bound. */
  lemma NextFrameAt(f: seq<string>, il: nat, c: nat)
    requires il < |f| && Matches(Intensity, f[il]) && il <= c <= BoundAfter(f, il)
    ensures var b := BoundAfter(f, il);
      FirstMatch(f, FramesMarker, c) == (if b < |f| then Some(b) else None)
  {
    FramesNotIntensity(f[il]);
    FirstMatchAt(f, FramesMarker, c, BoundAfter(f, il));
  }

  /** The first match from `start` is line `b` when `b` matches and nothing before it
      does, and there is none when `b` is the end of the buffer. */
  lemma FirstMatchAt(f: seq<string>, p: Pattern, start: nat, b: nat)
    requires start <= b <= |f| && (b < |f| ==> Matches(p, f[b]))
    requires forall k {:trigger Matches(p, f[k])} :: start <= k < b ==> !Matches(p, f[k])
    ensures FirstMatch(f, p, start) == (if b < |f| then Some(b) else None)
  {
    var r := FirstMatch(f, p, start);
    if r.Some? {
      assert !(r.value < b) && !(r.value > b);
    }
  }
}
