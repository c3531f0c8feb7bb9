/** The object side of the Formant report parser: `Formants.from_praat_text`, its cursor
    helper `Formants._find_line` and `Formants.to_matlab_literal`, each proved against the
    reference functions of `FormantReport`. */
module FormantParser {
  import opened Wrappers
  import opened Text
  import opened Numerals
  import opened FormantPatterns
  import opened MatlabLiteral
  import opened FormantReport

  /** The parser object: the stripped lines `f`, their count `n`, the cursor `i`, the last
      regex match and the data dictionary (`None` until a parse gets past the header). */
  class Formants {
    var f: seq<string>
    var n: int
    var i: int
    var lastMatch: Option<MatchResult>
    var data: Option<seq<Entry>>

    /** `Formants()` without a sound file: no lines, cursor at -1, no data. */
    constructor ()
      ensures f == [] && n == 0 && i == -1 && lastMatch == None && data == None
    {
      f := [];
      n := 0;
      i := -1;
      lastMatch := None;
      data := None;
    }

    /** `_find_line(p, start)`: finds the first line at or after `start` that matches `p`,
        moves the cursor there and returns it. When there is none the cursor stays put;
        a regex search leaves `last_match` as the (failed) match of the last line examined,
        so `None` when any line was examined and unchanged when the range was empty. */
    method FindLine(p: Pattern, start: nat) returns (line: Option<string>)
      requires n == |f|
      modifies this`i, this`lastMatch
      ensures FirstMatch(f, p, start).Some? ==>
                var k := FirstMatch(f, p, start).value;
                i == k && line == Some(f[k]) &&
                lastMatch == (if p.IsRegex() then Match(p, f[k]) else old(lastMatch))
      ensures FirstMatch(f, p, start).None? ==>
                i == old(i) && line == None &&
                lastMatch == (if p.IsRegex() && start < n then None else old(lastMatch))
    {
      var k := start;
      while k < n
        invariant start <= k && (k <= n || k == start)
        invariant FirstMatch(f, p, k) == FirstMatch(f, p, start)
        invariant i == old(i)
        invariant lastMatch == (if p.IsRegex() && start < k then None else old(lastMatch))
      {
        if p.IsRegex() {
          lastMatch := Match(p, f[k]);
          if lastMatch.Some? {
            i := k;
            return Some(f[k]);
          }
        } else if Matches(p, f[k]) {
          i := k;
          return Some(f[k]);
        }
        k := k + 1;
      }
      return None;
    }

    /** `_find_line(p)` followed by `float(last_match.group(1))`: the number of the next
        line carrying field `p`, read through `last_match`. `None` stands for the
        exception raised when `last_match` is `None` or has no group. */
    method ReadField(p: Pattern) returns (v: Option<real>)
      requires p.Field? && n == |f| && 0 <= i
      modifies this`i, this`lastMatch
      ensures FieldRead(f, n, p, old(i), old(lastMatch), i, lastMatch, v)
    {
      var found := FindLine(p, i);
      if lastMatch.None? || lastMatch.value.group.None? {
        if FirstMatch(f, p, old(i)).Some? {
          MatchFacts(p, f[FirstMatch(f, p, old(i)).value]);
        }
        return None;
      }
      v := Some(NumeralValue(lastMatch.value.group.value));
    }

    /** `_find_line(p)` followed by `int(last_match.group(1))` for a marker pattern `p`:
        the number of the next marker at or after the cursor, with the cursor moved to
        it; `None` (and the cursor unchanged) when no line from the cursor on has one. */
    method ReadMarker(p: Pattern) returns (number: Option<nat>)
      requires p.Indexed? && n == |f| && 0 <= i
      modifies this`i, this`lastMatch
      ensures var found := FirstMatch(f, p, old(i));
        if found.None? then number.None? && i == old(i) && lastMatch == (if old(i) < n then None else old(lastMatch))
        else i == found.value && number == Some(MarkerNumber(p, f[i]))
    {
      var line := FindLine(p, i);
      if line.None? {
        return None;
      }
      MatchFacts(p, f[i]);
      return Some(DigitsValue(lastMatch.value.group.value));
    }

    /** The loop over the six scalar keywords. Each search starts at the cursor, that is,
        on the line of the previous match; a search that finds nothing fails the parse
        (`last_match` is then `None`) and leaves the cursor on the last line found. When
        the cursor is already past the end, no line is examined and `last_match` keeps
        whatever an earlier call left there: if that carries a group, all six fields
        read its number. */
    method ReadScalars() returns (r: Result<(), Error>, vals: seq<real>)
      requires n == |f| && 0 <= i
      modifies this`i, this`lastMatch
      ensures !Stale(old(i), n, old(lastMatch)) ==>
        var sc := ScanScalars(f, old(i), ScalarKeys);
        vals == sc.vals && (r.Ok? <==> sc.complete) &&
        i == PrevLine(old(i), sc.lines, |sc.lines|)
      ensures Stale(old(i), n, old(lastMatch)) ==>
        r.Ok? && i == old(i) && |vals| == |ScalarKeys| &&
        forall m :: 0 <= m < |vals| ==> vals[m] == NumeralValue(old(lastMatch).value.group.value)
      ensures r.Err? ==> r.error == MissingField(Field(ScalarKeys[|vals|]))
      ensures r.Err? && old(i) < n ==> lastMatch.None?
      ensures old(i) < n ==> i < n
      ensures old(i) >= n ==> i == old(i) && lastMatch == old(lastMatch)
    {
      vals := [];
      ghost var lines: seq<nat> := [];
      ghost var start: nat := i;
      ghost var stale := lastMatch;
      var k := 0;
      while k < |ScalarKeys|
        invariant ScalarsSoFar(f, n, i, lastMatch, start, stale, k, lines, vals)
      {
        var v;
        ghost var lines';
        v, lines' := ReadScalar(start, stale, k, lines, vals);
        if v.None? {
          return Err(MissingField(Field(ScalarKeys[k]))), vals;
        }
        vals, lines := vals + [v.value], lines';
        k := k + 1;
      }
      ScalarsComplete(f, n, i, lastMatch, start, stale, lines, vals);
      r := Ok(());
    }

    /** One turn of the scalar loop: read keyword `k` after the values `vals` read on
        the lines `lines`. */
    method ReadScalar(ghost start: nat, ghost stale: Option<MatchResult>, k: nat, ghost lines: seq<nat>, vals: seq<real>)
      returns (v: Option<real>, ghost lines': seq<nat>)
      requires k < |ScalarKeys| && ScalarsSoFar(f, n, i, lastMatch, start, stale, k, lines, vals)
      modifies this`i, this`lastMatch
      ensures ScalarStep(f, n, i, lastMatch, start, stale, k, lines, vals, v, lines')
      ensures v.None? ==> ScalarsEnd(f, n, start, stale, i, lastMatch, false, vals)
    {
      ghost var from := i;
      ghost var last := lastMatch;
      v := ReadField(Field(ScalarKeys[k]));
      lines' := if v.Some? then lines + [i] else lines;
      ScalarRead(f, n, from, last, start, stale, k, lines, vals, i, lastMatch, v, lines');
      if v.None? {
        ScalarsMissing(f, n, from, last, start, stale, k, lines, vals, i, lastMatch);
      }
    }

    /** The inner `while self._find_line(re_['formant'])` loop of one frame, from the
        cursor, with `bound` the line of the next frame marker (or the end) and `maxn`
        the number of slots per row. */
    method ReadFormants(bound: nat, maxn: int)
      returns (fr: seq<Option<real>>, bw: seq<Option<real>>, err: Option<Error>, ghost src: seq<int>)
      requires n == |f| && 0 <= i < n && bound <= n
      modifies this`i, this`lastMatch
      ensures var spec := FormantLoop(f, old(i), bound, NaNs(maxn), NaNs(maxn), NoSources(maxn));
        if spec.Done? then err.None? && fr == spec.formants && bw == spec.bandwidths && src == spec.sources && i == spec.cursor
        else err == Some(spec.error)
      ensures 0 <= i < n && (err.Some? ==> EndMatch(f, i, lastMatch, err))
    {
      fr := NaNs(maxn);
      bw := NaNs(maxn);
      src := NoSources(maxn);
      ghost var g := f;
      ghost var spec := FormantLoop(g, i, bound, fr, bw, src);
      var more := true;
      err := None;
      while more
        invariant f == g && 0 <= i
        invariant more ==> i < n && |fr| == |bw| == |src| && FormantLoop(g, i, bound, fr, bw, src) == spec
        invariant !more ==> spec == if err.Some? then Failed(err.value) else Done(i, fr, bw, src)
        invariant !more ==> i < n && (err.Some? ==> EndMatch(g, i, lastMatch, err))
        decreases more, n - i
      {
        more, fr, bw, src, err := ReadFormantTurn(bound, fr, bw, src);
      }
    }

    /** One turn of that loop: the search for the next `formant [m]:` marker, the test
        against the frame bound, then the frequency and the bandwidth. The loop ends
        (no marker is left, the marker lies past the bound, or a read fails), or it goes
        on further down the buffer. */
    method ReadFormantTurn(bound: nat, fr: seq<Option<real>>, bw: seq<Option<real>>, ghost src: seq<int>)
      returns (more: bool, fr': seq<Option<real>>, bw': seq<Option<real>>, ghost src': seq<int>, err: Option<Error>)
      requires n == |f| && 0 <= i < n && bound <= n && |fr| == |bw| == |src|
      modifies this`i, this`lastMatch
      ensures 0 <= i < n && (more ==> old(i) < i && err.None? && |fr'| == |bw'| == |src'| == |fr|)
      ensures err.Some? ==> EndMatch(f, i, lastMatch, err)
      ensures FormantLoop(f, old(i), bound, fr, bw, src) ==
                if more then FormantLoop(f, i, bound, fr', bw', src')
                else if err.Some? then Failed(err.value) else Done(i, fr', bw', src')
    {
      ghost var cur := i;
      var number := ReadMarker(FormantMarker);
      if number.None? {
        FormantLoopNone(f, cur, bound, fr, bw, src);
        return false, fr, bw, src, None;
      }
      more, fr', bw', src', err := ReadFormantAt(cur, bound, number.value, fr, bw, src);
    }

    /** The rest of a formant turn, with the cursor on the first `formant [m]:` marker
        from `cur` and `number` its `m`: stop at a marker past the frame bound (the
        cursor moves to the bound), otherwise write the slot. */
    method ReadFormantAt(ghost cur: nat, bound: nat, number: nat,
                         fr: seq<Option<real>>, bw: seq<Option<real>>, ghost src: seq<int>)
      returns (more: bool, fr': seq<Option<real>>, bw': seq<Option<real>>, ghost src': seq<int>, err: Option<Error>)
      requires n == |f| && 0 <= i < n && bound <= n && |fr| == |bw| == |src|
      requires FirstMatch(f, FormantMarker, cur) == Some(i) && number == MarkerNumber(FormantMarker, f[i])
      modifies this`i, this`lastMatch
      ensures 0 <= i < n && (more ==> cur < i && err.None? && |fr'| == |bw'| == |src'| == |fr|)
      ensures err.Some? ==> EndMatch(f, i, lastMatch, err)
      ensures FormantLoop(f, cur, bound, fr, bw, src) ==
                if more then FormantLoop(f, i, bound, fr', bw', src')
                else if err.Some? then Failed(err.value) else Done(i, fr', bw', src')
    {
      if i > bound {
        FormantLoopBeyond(f, cur, bound, fr, bw, src);
        i := bound;
        return false, fr, bw, src, None;
      }
      more, fr', bw', src', err := ReadFormantWrite(cur, bound, number, fr, bw, src);
    }

    /** A formant turn at a marker within the frame: write slot `m - 1`. */
    method ReadFormantWrite(ghost cur: nat, bound: nat, number: nat,
                            fr: seq<Option<real>>, bw: seq<Option<real>>, ghost src: seq<int>)
      returns (more: bool, fr': seq<Option<real>>, bw': seq<Option<real>>, ghost src': seq<int>, err: Option<Error>)
      requires n == |f| && 0 <= i < n && i <= bound <= n && |fr| == |bw| == |src|
      requires FirstMatch(f, FormantMarker, cur) == Some(i) && number == MarkerNumber(FormantMarker, f[i])
      modifies this`i, this`lastMatch
      ensures 0 <= i < n && (more ==> cur < i && err.None? && |fr'| == |bw'| == |src'| == |fr|)
      ensures err.Some? ==> EndMatch(f, i, lastMatch, err)
      ensures FormantLoop(f, cur, bound, fr, bw, src) ==
                if more then FormantLoop(f, i, bound, fr', bw', src')
                else if err.Some? then Failed(err.value) else Done(i, fr', bw', src')
    {
      ghost var pm := i;
      err, fr', bw', src' := ReadFrequency(bound, number as int - 1, fr, bw, src);
      FormantAtWrite(f, cur, pm, number as int - 1, bound, fr, bw, src,
                     if err.Some? then Failed(err.value) else FormantLoop(f, i, bound, fr', bw', src'));
      more := err.None?;
    }

    /** The frequency half of a formant turn, with the cursor on a `formant [m]:` marker
        and `index` its `m - 1`: read the next frequency and write it into that slot, then
        the bandwidth half. The turn fails, or it leaves the cursor further on with the
        rest of the loop still to run. */
    method ReadFrequency(bound: nat, index: int, fr: seq<Option<real>>, bw: seq<Option<real>>, ghost src: seq<int>)
      returns (err: Option<Error>, fr': seq<Option<real>>, bw': seq<Option<real>>, ghost src': seq<int>)
      requires n == |f| && 0 <= i < n && |fr| == |bw| == |src|
      modifies this`i, this`lastMatch
      ensures 0 <= i < n && (err.None? ==> old(i) < i && |fr'| == |bw'| == |src'| == |fr|)
      ensures err.Some? ==> EndMatch(f, i, lastMatch, err)
      ensures FormantWrite(f, old(i), index, bound, fr, bw, src) ==
                if err.Some? then Failed(err.value) else FormantLoop(f, i, bound, fr', bw', src')
    {
      ghost var pm := i;
      var frq := ReadField(Frequency);
      if frq.None? {
        return Some(MissingField(Frequency)), fr, bw, src;
      }
      var slot := PySlot(index, |fr|);
      if slot.None? {
        return Some(SlotOutOfRange(index)), fr, bw, src;
      }
      fr' := fr[slot.value := frq];
      src' := src[slot.value := pm];
      err, bw' := ReadBandwidth(bound, slot.value, fr', bw, src');
    }

    /** The bandwidth half of a formant turn, with the cursor on a frequency line: read
        the next bandwidth and write it into slot `s`. */
    method ReadBandwidth(bound: nat, s: nat, fr: seq<Option<real>>, bw: seq<Option<real>>, ghost src: seq<int>)
      returns (err: Option<Error>, bw': seq<Option<real>>)
      requires n == |f| && 0 <= i < n && Matches(Frequency, f[i]) && s < |fr| == |bw| == |src|
      modifies this`i, this`lastMatch
      ensures 0 <= i < n && (err.None? ==> old(i) < i && |bw'| == |bw|)
      ensures err.Some? ==> EndMatch(f, i, lastMatch, err)
      ensures BandwidthWrite(f, old(i), s, bound, fr, bw, src) ==
                if err.Some? then Failed(err.value) else FormantLoop(f, i, bound, fr, bw', src)
    {
      ghost var q := i;
      var width := ReadField(Bandwidth);
      if width.None? {
        return Some(MissingField(Bandwidth)), bw;
      }
      FrequencyNotBandwidth(f[q]);
      return None, bw[s := width];
    }

    /** `if self._find_line(re_['frames'], self.i+1): next_frame = self.i` (else the line
        count), then `self.i = i_frame`: the bound of the frame's formant search, with
        the cursor put back on the intensity line. A found line matches the pattern, so
        it is never the empty (false) string. */
    method FrameBound() returns (bound: nat)
      requires n == |f| && 0 <= i < n
      modifies this`i, this`lastMatch
      ensures bound == BoundAfter(f, old(i)) && i == old(i)
    {
      var frameLine := i;
      var next := FindLine(FramesMarker, i + 1);
      if next.Some? {
        bound := i;
      } else {
        bound := n;
      }
      i := frameLine;
    }

    /** The formants of the frame whose intensity is on the cursor's line: the bound, the
        move to the `formant []:` header, the formant loop and the two appends. The frame
        fails, or the outer loop goes on from where the formant loop left the cursor. */
    method ReadFormantsOf(acc: Report, ghost markers: seq<nat>, ghost sources: seq<seq<int>>)
      returns (more: bool, rep: Report, err: Option<Error>, ghost markers': seq<nat>, ghost sources': seq<seq<int>>)
      requires n == |f| && 0 <= i < n
      modifies this`i, this`lastMatch
      ensures more ==> err.None? && old(i) <= i < n
      ensures !more ==> EndMatch(f, i, lastMatch, err)
      ensures FormantsOf(f, old(i), acc, markers, sources) ==
                if more then FrameLoop(f, i, rep, markers', sources') else FrameScan(rep, markers', sources', err)
    {
      ghost var il := i;
      var bound := FrameBound();
      var header := FindLine(FormantArray, i);
      assert i == MovedTo(FirstMatch(f, FormantArray, il), il);
      var fr, bw, e, src := ReadFormants(bound, acc.maxnFormants);
      if e.Some? {
        return false, acc, e, markers, sources;
      }
      return true, acc.(formants := acc.formants + [fr], bandwidths := acc.bandwidths + [bw]), None, markers, sources + [src];
    }

    /** The frame after its marker: the intensity read and its append, then the formants. */
    method ReadFrameBody(acc: Report, ghost markers: seq<nat>, ghost sources: seq<seq<int>>)
      returns (more: bool, rep: Report, err: Option<Error>, ghost markers': seq<nat>, ghost sources': seq<seq<int>>)
      requires n == |f| && 0 <= i < n && Matches(FramesMarker, f[i])
      modifies this`i, this`lastMatch
      ensures more ==> err.None? && old(i) < i < n
      ensures !more ==> EndMatch(f, i, lastMatch, err)
      ensures FrameBody(f, old(i), acc, markers, sources) ==
                if more then FrameLoop(f, i, rep, markers', sources') else FrameScan(rep, markers', sources', err)
    {
      ghost var m := i;
      var v := ReadField(Intensity);
      if v.None? {
        return false, acc, Some(MissingField(Intensity)), markers, sources;
      }
      FramesNotIntensity(f[m]);
      more, rep, err, markers', sources' := ReadFormantsOf(acc.(intensity := acc.intensity + [v.value]), markers, sources);
    }

    /** One turn of the outer loop: the search for the next `frames [k]:` marker, the
        time stamp `x1 + (k-1)*dx`, then the rest of the frame. The loop ends (no marker
        is left, or the frame fails), or it goes on further down the buffer. */
    method ReadFrameTurn(acc: Report, ghost markers: seq<nat>, ghost sources: seq<seq<int>>)
      returns (more: bool, rep: Report, err: Option<Error>, ghost markers': seq<nat>, ghost sources': seq<seq<int>>)
      requires n == |f| && 0 <= i
      modifies this`i, this`lastMatch
      ensures more ==> err.None? && old(i) < i < n
      ensures !more && old(i) < n ==> EndMatch(f, i, lastMatch, err)
      ensures !more && old(i) >= n ==> err.None? && i == old(i) && lastMatch == old(lastMatch)
      ensures FrameLoop(f, old(i), acc, markers, sources) ==
                if more then FrameLoop(f, i, rep, markers', sources') else FrameScan(rep, markers', sources', err)
    {
      ghost var cur := i;
      var number := ReadMarker(FramesMarker);
      if number.None? {
        FrameLoopNone(f, cur, acc, markers, sources);
        return false, acc, None, markers, sources;
      }
      FrameLoopAt(f, cur, acc, markers, sources);
      var frame := number.value as int - 1;
      ghost var body := FrameBody(f, i, Stamped(acc, frame), markers + [i], sources);
      assert FrameLoop(f, cur, acc, markers, sources) == body;
      more, rep, err, markers', sources' := ReadFrameBody(Stamped(acc, frame), markers + [i], sources);
    }

    /** The outer `while self._find_line(re_['frames'])` loop, from the cursor. */
    method ReadFrames(acc0: Report) returns (rep: Report, err: Option<Error>)
      requires n == |f| && 0 <= i
      modifies this`i, this`lastMatch
      ensures rep == FrameLoop(f, old(i), acc0, [], []).report
      ensures err == FrameLoop(f, old(i), acc0, [], []).error
      ensures old(i) < n ==> EndMatch(f, i, lastMatch, err)
      ensures old(i) >= n ==> i == old(i) && lastMatch == old(lastMatch)
    {
      ghost var g := f;
      ghost var i0 := i;
      ghost var last0 := lastMatch;
      ghost var markers: seq<nat> := [];
      ghost var sources: seq<seq<int>> := [];
      ghost var spec := FrameLoop(g, i, acc0, markers, sources);
      rep := acc0;
      while true
        invariant f == g && 0 <= i
        invariant FrameLoop(g, i, rep, markers, sources) == spec
        invariant i0 < n ==> i < n
        invariant i0 >= n ==> i == i0 && lastMatch == last0
        decreases n - i
      {
        var more;
        more, rep, err, markers, sources := ReadFrameTurn(rep, markers, sources);
        if !more {
          return;
        }
      }
    }

    /** `self.i = 2` and the six scalars read from there. */
    method ReadFirstScalars() returns (r: Result<(), Error>, vals: seq<real>)
      requires n == |f|
      modifies this`i, this`lastMatch
      ensures var sc := ScalarsRead(f, 2, old(lastMatch));
        vals == sc.vals && (r.Ok? <==> sc.complete) && (r.Ok? ==> i == PrevLine(2, sc.lines, |sc.lines|))
      ensures r.Err? ==> r.error == MissingField(Field(ScalarKeys[|vals|]))
      ensures r.Err? && 2 < n ==> lastMatch.None?
      ensures 2 < n ==> i < n
      ensures n <= 2 ==> i == 2 && lastMatch == old(lastMatch)
    {
      i := 2;
      ghost var stale := Stale(2, n, lastMatch);
      ghost var last := lastMatch;
      r, vals := ReadScalars();
      ghost var sc := ScalarsRead(f, 2, last);
      if stale {
        assert vals == sc.vals;
      }
      if r.Ok? {
        assert i == PrevLine(2, sc.lines, |sc.lines|);
      }
    }

    /** Everything after the header check: the six scalars from line 2, the dictionary
        they fill, the move to the `frames []:` header, the frame loop and the finished
        dictionary. */
    method ReadReport() returns (err: Option<Error>)
      requires n == |f| && HeaderError(f).None?
      modifies this`i, this`lastMatch, this`data
      ensures var out := ParseReport(f, old(lastMatch)); err == out.failure && data == out.dict
      ensures 2 < n ==> EndMatch(f, i, lastMatch, err)
      ensures n <= 2 ==> i == 2 && lastMatch == old(lastMatch)
    {
      ParseReportAfterHeader(f, lastMatch);
      var r, vals := ReadFirstScalars();
      data := Some(ScalarDict(vals));
      if r.Err? {
        return Some(r.error);
      }
      var first := Report(vals[0], vals[1], PyInt(vals[2]), vals[3], vals[4], PyInt(vals[5]), [], [], [], []);
      var rep, e := ReadFrameArray(first);
      data := Some(ReportDict(rep));
      err := e;
    }

    /** `self._find_line(re_['frames_array'])` and the frame loop after it, from the
        cursor, with `acc0` the data set before the first frame. */
    method ReadFrameArray(acc0: Report) returns (rep: Report, err: Option<Error>)
      requires n == |f| && 0 <= i
      modifies this`i, this`lastMatch
      ensures var scan := FrameLoop(f, MovedTo(FirstMatch(f, FramesArray, old(i)), old(i)), acc0, [], []);
        rep == scan.report && err == scan.error
      ensures old(i) < n ==> EndMatch(f, i, lastMatch, err)
      ensures old(i) >= n ==> i == old(i) && lastMatch == old(lastMatch)
    {
      ghost var start := i;
      var header := FindLine(FramesArray, i);
      assert i == MovedTo(FirstMatch(f, FramesArray, start), start);
      rep, err := ReadFrames(acc0);
    }

    /** `from_praat_text` on the lines of a file: strips them, resets the cursor, checks
        the two header lines and parses the report. The error stands for the exception
        that ends the parse; the dictionary is what the parse left in `data`, which a
        rejected header leaves as it was. */
    method FromPraatText(lines: seq<string>) returns (err: Option<Error>)
      modifies this
      ensures f == StripLines(lines) && n == |f|
      ensures var out := ParseReport(f, old(lastMatch));
        err == out.failure && data == (if out.dict.Some? then out.dict else old(data))
      ensures HeaderError(f).Some? ==> i == -1 && lastMatch == old(lastMatch)
      ensures HeaderError(f).None? && 2 < n ==> EndMatch(f, i, lastMatch, err)
      ensures HeaderError(f).None? && n <= 2 ==> i == 2 && lastMatch == old(lastMatch)
    {
      f := StripLines(lines);
      n := |f|;
      err := ParseStripped();
    }

    /** The same on lines already stripped and held in `f`: the cursor reset, the header
        check and the parse. */
    method ParseStripped() returns (err: Option<Error>)
      requires n == |f|
      modifies this`i, this`lastMatch, this`data
      ensures var out := ParseReport(f, old(lastMatch));
        err == out.failure && data == (if out.dict.Some? then out.dict else old(data))
      ensures HeaderError(f).Some? ==> i == -1 && lastMatch == old(lastMatch)
      ensures HeaderError(f).None? && 2 < n ==> EndMatch(f, i, lastMatch, err)
      ensures HeaderError(f).None? && n <= 2 ==> i == 2 && lastMatch == old(lastMatch)
    {
      i := -1;
      err := HeaderErrorAsWritten(f);
      if err.Some? {
        return;
      }
      err := ReadReport();
    }

    /** `to_matlab_literal`: the dictionary as a `struct(...)` literal, every list in
        brackets; `NoData` before any parse got past the header. */
    method ToMatlabLiteral(show: Num -> string) returns (r: Result<string, Error>)
      ensures data.None? ==> r == Err(NoData)
      ensures data.Some? ==> r == Ok(StructLiteral(data.value, show))
    {
      if data.None? {
        return Err(NoData);
      }
      return Ok(StructLiteral(data.value, show));
    }

    /** The same with `_list_to_matlab_string` as written: an empty list, which every
        report without frames holds, fails the export with `IndexError`. */
    method ToMatlabLiteralAsWritten(show: Num -> string) returns (r: Result<string, Error>)
      ensures data.None? ==> r == Err(NoData)
      ensures data.Some? ==> r == (if StructLiteralAsWritten(data.value, show).Some?
                                   then Ok(StructLiteralAsWritten(data.value, show).value) else Err(EmptyList))
    {
      if data.None? {
        return Err(NoData);
      }
      var s := StructLiteralAsWritten(data.value, show);
      if s.None? {
        return Err(EmptyList);
      }
      return Ok(s.value);
    }
  }

  /** The last match a parse leaves when its frame loop ended with `err` and the cursor
      on line `i`: after a slot index out of range, the match of the frequency line the
      cursor is on; otherwise `None`, because the last search examined lines and found
      nothing. */
  predicate EndMatch(f: seq<string>, i: int, last: Option<MatchResult>, err: Option<Error>) {
    if err.Some? && err.value.SlotOutOfRange? then 0 <= i < |f| && last.Some? && last == Match(Frequency, f[i])
    else last.None?
  }

  /** What the loop over the scalar keywords knows after `k` of them, on the lines `f`
      with the cursor `i` and the last match `last`, where `start` is the cursor and
      `stale` the last match it began with: inside the buffer the lines and values are
      the first `k` of the scan; past the end the cursor and the last match stay, and a
      stale match with a group has given every value. */
  ghost predicate ScalarsSoFar(f: seq<string>, n: int, i: int, last: Option<MatchResult>,
                               start: nat, stale: Option<MatchResult>, k: nat, lines: seq<nat>, vals: seq<real>)
  {
    n == |f| && 0 <= i && k <= |ScalarKeys| && |vals| == |lines| == k &&
    (start < n ==> i < n) &&
    (start < n || k == 0 ==>
      var full := ScanScalars(f, start, ScalarKeys);
      k <= |full.lines| && lines == full.lines[..k] && vals == full.vals[..k] && i == PrevLine(start, full.lines, k)) &&
    (start >= n ==> i == start && last == stale) &&
    (start >= n && k > 0 ==> Stale(start, n, stale)) &&
    (Stale(start, n, stale) ==> forall m :: 0 <= m < k ==> vals[m] == NumeralValue(stale.value.group.value))
  }

  /** What `ReadField(p)` reports, from the cursor `i` and last match `last` to the
      cursor `i'` and last match `last'`. */
  ghost predicate FieldRead(f: seq<string>, n: int, p: Pattern, i: int, last: Option<MatchResult>,
                            i': int, last': Option<MatchResult>, v: Option<real>)
    requires p.Field? && n == |f| && 0 <= i
  {
    (i < n ==>
      match FirstMatch(f, p, i)
      case None => v.None? && i' == i && last'.None?
      case Some(q) => v == Some(FieldValue(p, f[q])) && i' == q && last' == Match(p, f[q])) &&
    (i >= n ==>
      i' == i && last' == last &&
      v == (if Stale(i, n, last) then Some(NumeralValue(last.value.group.value)) else None))
  }

  /** What one keyword of the scalar loop yields: a value extends what the loop knows by
      one keyword; no value ends the scan where the reference scan ends. */
  ghost predicate ScalarStep(f: seq<string>, n: int, i: int, last: Option<MatchResult>,
                             start: nat, stale: Option<MatchResult>, k: nat, lines: seq<nat>, vals: seq<real>,
                             v: Option<real>, lines': seq<nat>)
    requires k < |ScalarKeys|
  {
    (v.Some? ==> ScalarsSoFar(f, n, i, last, start, stale, k + 1, lines', vals + [v.value])) &&
    (v.None? ==> !Stale(start, n, stale)) &&
    (v.None? && (start < n || k == 0) ==>
      var full := ScanScalars(f, start, ScalarKeys);
      lines == full.lines && vals == full.vals && !full.complete)
  }

  /** A search for the next scalar keyword, as `ReadField` reports it, is one step of the
      reference scan. */
  lemma ScalarRead(f: seq<string>, n: int, i: int, last: Option<MatchResult>,
                   start: nat, stale: Option<MatchResult>, k: nat, lines: seq<nat>, vals: seq<real>,
                   i': int, last': Option<MatchResult>, v: Option<real>, lines': seq<nat>)
    requires k < |ScalarKeys| && ScalarsSoFar(f, n, i, last, start, stale, k, lines, vals)
    requires FieldRead(f, n, Field(ScalarKeys[k]), i, last, i', last', v)
    requires lines' == if v.Some? then lines + [i'] else lines
    ensures ScalarStep(f, n, i', last', start, stale, k, lines, vals, v, lines')
  {
    if v.None? {
      if start < n || k == 0 {
        ScanScalarsEnd(f, start, ScalarKeys, k, lines, vals);
      }
    } else if start < n {
      ScanScalarsExtend(f, start, ScalarKeys, k, lines, vals, i');
    }
  }

  /** What the scalar loop promises when it stops, from the cursor `start` and last
      match `stale` to the cursor `i` and last match `last`, with `ok` whether all six
      keywords were read and `vals` the values read. */
  ghost predicate ScalarsEnd(f: seq<string>, n: int, start: nat, stale: Option<MatchResult>,
                             i: int, last: Option<MatchResult>, ok: bool, vals: seq<real>)
  {
    (!Stale(start, n, stale) ==>
      var sc := ScanScalars(f, start, ScalarKeys);
      vals == sc.vals && (ok <==> sc.complete) && i == PrevLine(start, sc.lines, |sc.lines|)) &&
    (Stale(start, n, stale) ==>
      ok && i == start && |vals| == |ScalarKeys| &&
      forall m :: 0 <= m < |vals| ==> vals[m] == NumeralValue(stale.value.group.value)) &&
    (!ok && start < n ==> last.None?) &&
    (start < n ==> i < n) &&
    (start >= n ==> i == start && last == stale)
  }

  /** A keyword not found ends the scalar loop where the reference scan fails. */
  lemma ScalarsMissing(f: seq<string>, n: int, from: int, last: Option<MatchResult>,
                       start: nat, stale: Option<MatchResult>, k: nat, lines: seq<nat>, vals: seq<real>,
                       i': int, last': Option<MatchResult>)
    requires k < |ScalarKeys| && ScalarsSoFar(f, n, from, last, start, stale, k, lines, vals)
    requires FieldRead(f, n, Field(ScalarKeys[k]), from, last, i', last', None)
    requires ScalarStep(f, n, i', last', start, stale, k, lines, vals, None, lines)
    ensures ScalarsEnd(f, n, start, stale, i', last', false, vals)
  {
  }

  /** All six keywords read complete the reference scan, or repeat a stale match. */
  lemma ScalarsComplete(f: seq<string>, n: int, i: int, last: Option<MatchResult>,
                        start: nat, stale: Option<MatchResult>, lines: seq<nat>, vals: seq<real>)
    requires ScalarsSoFar(f, n, i, last, start, stale, |ScalarKeys|, lines, vals)
    ensures ScalarsEnd(f, n, start, stale, i, last, true, vals)
  {
    if start < n {
      ScanScalarsEnd(f, start, ScalarKeys, |ScalarKeys|, lines, vals);
    }
  }

  /** A formant turn at a marker within the frame, on line `pm` with `index` its number
      less one, is the reference loop's write of that slot: whatever the write yields,
      its error or the rest of the loop, the loop yields. */
  lemma FormantAtWrite(f: seq<string>, cur: nat, pm: nat, index: int, bound: nat,
                       fr: seq<Option<real>>, bw: seq<Option<real>>, src: seq<int>, w: FormantScan)
    requires |fr| == |bw| == |src| && FirstMatch(f, FormantMarker, cur) == Some(pm) && pm <= bound
    requires index == MarkerNumber(FormantMarker, f[pm]) - 1
    requires FormantWrite(f, pm, index, bound, fr, bw, src) == w
    ensures FormantLoop(f, cur, bound, fr, bw, src) == w
  {
    FormantLoopWrite(f, cur, bound, fr, bw, src);
  }

}
