/** What one frame's formant loop guarantees about the two rows it fills: a slot holds a
    frequency exactly when it holds a bandwidth, and then both come from a
    `formant [m]:` marker that named the slot, read from the lines after it; and every
    marker the loop turns at fills its slot, the slot's source being the last of them
    that named it. */
module FormantSlots {
  import opened Wrappers
  import opened FormantPatterns
  import opened FormantReport

  function Min(a: nat, b: nat): nat {
    if a < b then a else b
  }

  /** Line `p` is a `formant [m]:` marker whose slot in a row of `maxn` is `s`. */
  predicate SlotSource(f: seq<string>, p: int, s: nat, maxn: nat) {
    0 <= p < |f| && Matches(FormantMarker, f[p]) && FormantSlot(f[p], maxn) == Some(s)
  }

  /** `x` is the number of the first frequency at or after line `p`. */
  predicate FrequencyOf(f: seq<string>, p: nat, x: Option<real>) {
    var q := FirstMatch(f, Frequency, p);
    q.Some? && x == Some(FieldValue(Frequency, f[q.value]))
  }

  /** `y` is the number of the first bandwidth at or after the first frequency after line `p`. */
  predicate BandwidthOf(f: seq<string>, p: nat, y: Option<real>) {
    var q := FirstMatch(f, Frequency, p);
    q.Some? && var b := FirstMatch(f, Bandwidth, q.value); b.Some? && y == Some(FieldValue(Bandwidth, f[b.value]))
  }

  /** Slot `s` of a row of `maxn`, holding frequency `x`, bandwidth `y` and source line
      `p` (`-1` for none): both values or neither, and a source between lines `lo` and
      `hi` that names the slot and whose values they are. */
  predicate SlotSound(f: seq<string>, lo: nat, hi: nat, maxn: nat, s: nat, x: Option<real>, y: Option<real>, p: int) {
    (p >= 0 <==> x.Some?) && (p >= 0 <==> y.Some?) &&
    (p >= 0 ==> lo <= p <= hi && SlotSource(f, p, s, maxn) && FrequencyOf(f, p, x) && BandwidthOf(f, p, y))
  }

  predicate SlotsSound(f: seq<string>, lo: nat, hi: nat, fr: seq<Option<real>>, bw: seq<Option<real>>, src: seq<int>) {
    |fr| == |bw| == |src| &&
    forall s :: 0 <= s < |src| ==> SlotSound(f, lo, hi, |src|, s, fr[s], bw[s], src[s])
  }

  /** A row with nothing written is sound for any range. */
  lemma EmptySlotsSound(f: seq<string>, lo: nat, hi: nat, maxn: int)
    ensures SlotsSound(f, lo, hi, NaNs(maxn), NaNs(maxn), NoSources(maxn))
  {
  }

  /** Soundness survives a wider range of source lines; every source is a line of `f`. */
  lemma SlotsWiden(f: seq<string>, lo: nat, hi: nat, lo': nat, hi': nat, fr: seq<Option<real>>, bw: seq<Option<real>>, src: seq<int>)
    requires SlotsSound(f, lo, hi, fr, bw, src)
    requires lo' <= lo && (hi <= hi' || hi' == |f|)
    ensures SlotsSound(f, lo', hi', fr, bw, src)
  {
    forall s | 0 <= s < |src|
      ensures SlotSound(f, lo', hi', |src|, s, fr[s], bw[s], src[s])
    {
      assert SlotSound(f, lo, hi, |src|, s, fr[s], bw[s], src[s]);
    }
  }

  /** The formant loop keeps every slot sound, with every source from the loop's first
      cursor on and at most the cursor it ends with and the frame bound. */
  lemma {:induction false} FormantLoopSound(f: seq<string>, cur: nat, bound: nat, lo: nat,
                                            fr: seq<Option<real>>, bw: seq<Option<real>>, src: seq<int>)
    requires |fr| == |bw| == |src| && lo <= cur
    requires SlotsSound(f, lo, Min(cur, bound), fr, bw, src)
    ensures var r := FormantLoop(f, cur, bound, fr, bw, src);
      r.Done? ==> SlotsSound(f, lo, Min(r.cursor, bound), r.formants, r.bandwidths, r.sources)
    decreases |f| - cur, 2
  {
    var found := FirstMatch(f, FormantMarker, cur);
    if found.None? {
      FormantLoopNone(f, cur, bound, fr, bw, src);
    } else if found.value > bound {
      FormantLoopBeyond(f, cur, bound, fr, bw, src);
      SlotsWiden(f, lo, Min(cur, bound), lo, bound, fr, bw, src);
    } else {
      var m := found.value;
      FormantLoopWrite(f, cur, bound, fr, bw, src);
      SlotsWiden(f, lo, Min(cur, bound), lo, m, fr, bw, src);
      FormantWriteSound(f, m, MarkerNumber(FormantMarker, f[m]) - 1, bound, lo, fr, bw, src);
    }
  }

  lemma {:induction false} FormantWriteSound(f: seq<string>, pm: nat, index: int, bound: nat, lo: nat,
                                             fr: seq<Option<real>>, bw: seq<Option<real>>, src: seq<int>)
    requires pm < |f| && Matches(FormantMarker, f[pm]) && index == MarkerNumber(FormantMarker, f[pm]) - 1
    requires |fr| == |bw| == |src| && lo <= pm <= bound
    requires SlotsSound(f, lo, pm, fr, bw, src)
    ensures var r := FormantWrite(f, pm, index, bound, fr, bw, src);
      r.Done? ==> SlotsSound(f, lo, Min(r.cursor, bound), r.formants, r.bandwidths, r.sources)
    decreases |f| - pm, 1
  {
    var found := FirstMatch(f, Frequency, pm);
    var slot := PySlot(index, |fr|);
    if found.Some? && slot.Some? {
      var q := found.value;
      var s := slot.value;
      var x := Some(FieldValue(Frequency, f[q]));
      FormantNotFrequency(f[pm]);
      FormantWriteStep(f, pm, index, bound, fr, bw, src);
      OthersSound(f, lo, pm, fr, bw, src, s, x);
      BandwidthWriteSound(f, q, s, bound, lo, pm, fr[s := x], bw, src[s := pm]);
    }
  }

  /** A frequency found and a slot in range: the turn goes on with the bandwidth half. */
  lemma FormantWriteStep(f: seq<string>, pm: nat, index: int, bound: nat,
                         fr: seq<Option<real>>, bw: seq<Option<real>>, src: seq<int>)
    requires pm < |f| && |fr| == |bw| == |src|
    requires FirstMatch(f, Frequency, pm).Some? && PySlot(index, |fr|).Some?
    ensures var q := FirstMatch(f, Frequency, pm).value; var s := PySlot(index, |fr|).value;
      FormantWrite(f, pm, index, bound, fr, bw, src) ==
        BandwidthWrite(f, q, s, bound, fr[s := Some(FieldValue(Frequency, f[q]))], bw, src[s := pm])
  {
  }

  /** Writing slot `s` leaves every other slot as sound as it was. */
  lemma OthersSound(f: seq<string>, lo: nat, hi: nat, fr: seq<Option<real>>, bw: seq<Option<real>>, src: seq<int>,
                    s: nat, x: Option<real>)
    requires SlotsSound(f, lo, hi, fr, bw, src) && s < |src|
    ensures forall t :: 0 <= t < |src| && t != s ==>
      SlotSound(f, lo, hi, |src|, t, fr[s := x][t], bw[t], src[s := hi][t])
  {
    forall t | 0 <= t < |src| && t != s
      ensures SlotSound(f, lo, hi, |src|, t, fr[s := x][t], bw[t], src[s := hi][t])
    {
      assert SlotSound(f, lo, hi, |src|, t, fr[t], bw[t], src[t]);
    }
  }

  lemma {:induction false} BandwidthWriteSound(f: seq<string>, q: nat, s: nat, bound: nat, lo: nat, pm: nat,
                                               fr: seq<Option<real>>, bw: seq<Option<real>>, src: seq<int>)
    requires q < |f| && Matches(Frequency, f[q]) && s < |fr| == |bw| == |src|
    requires lo <= pm < q && pm <= bound
    requires SlotSource(f, pm, s, |src|) && FirstMatch(f, Frequency, pm) == Some(q)
    requires src[s] == pm && fr[s] == Some(FieldValue(Frequency, f[q]))
    requires forall t :: 0 <= t < |src| && t != s ==> SlotSound(f, lo, pm, |src|, t, fr[t], bw[t], src[t])
    ensures var r := BandwidthWrite(f, q, s, bound, fr, bw, src);
      r.Done? ==> SlotsSound(f, lo, Min(r.cursor, bound), r.formants, r.bandwidths, r.sources)
    decreases |f| - q, 0
  {
    var found := FirstMatch(f, Bandwidth, q);
    if found.Some? {
      var b := found.value;
      FrequencyNotBandwidth(f[q]);
      var bw' := bw[s := Some(FieldValue(Bandwidth, f[b]))];
      assert BandwidthWrite(f, q, s, bound, fr, bw, src) == FormantLoop(f, b, bound, fr, bw', src);
      forall t | 0 <= t < |src|
        ensures SlotSound(f, lo, Min(b, bound), |src|, t, fr[t], bw'[t], src[t])
      {
        if t != s {
          assert SlotSound(f, lo, pm, |src|, t, fr[t], bw[t], src[t]);
        }
      }
      FormantLoopSound(f, b, bound, lo, fr, bw', src);
    }
  }

  /** The `formant [m]:` markers the loop from `cur` turns at, in order, for rows of `n`
      slots: each next marker found, as long as it lies no later than `bound`, the search
      going on from the bandwidth line of each complete turn. A turn that cannot complete
      (no frequency, a slot out of range, no bandwidth) is the last one. */
  function Visited(f: seq<string>, cur: nat, bound: nat, n: nat): (r: seq<nat>)
    ensures forall k :: 0 <= k < |r| ==> cur <= r[k] <= bound && r[k] < |f| && Matches(FormantMarker, f[r[k]])
    ensures forall k :: 0 < k < |r| ==> r[k - 1] < r[k]
    decreases |f| - cur
  {
    var found := FirstMatch(f, FormantMarker, cur);
    if found.None? || found.value > bound then []
    else
      var m := found.value;
      var q := FirstMatch(f, Frequency, m);
      if q.None? || FormantSlot(f[m], n).None? then [m]
      else
        var b := FirstMatch(f, Bandwidth, q.value);
        if b.None? then [m]
        else
          FormantNotFrequency(f[m]);
          [m] + Visited(f, b.value, bound, n)
  }

  /** Marker line `p` has filled its slot in the rows: both values are there, and the
      slot's source is `p` or a later marker. */
  predicate Fills(f: seq<string>, p: nat, fr: seq<Option<real>>, bw: seq<Option<real>>, src: seq<int>) {
    |fr| == |bw| == |src| && p < |f| && Matches(FormantMarker, f[p]) &&
    var s := FormantSlot(f[p], |src|);
    s.Some? && fr[s.value].Some? && bw[s.value].Some? && p <= src[s.value]
  }

  /** Every source in `src` lies before line `c`. */
  predicate SourcesBefore(src: seq<int>, c: int) {
    forall s :: 0 <= s < |src| ==> src[s] < c
  }

  /** What a loop that turned at the markers `vis` did to rows `fr`, `bw`, `src`, ending
      with `fr'`, `bw'`, `src'`: each visited marker filled its slot, a filled slot stayed
      filled, no source moved back, and each source is the old one or a visited marker. */
  ghost predicate LoopFills(f: seq<string>, fr: seq<Option<real>>, bw: seq<Option<real>>, src: seq<int>, vis: seq<nat>,
                            fr': seq<Option<real>>, bw': seq<Option<real>>, src': seq<int>)
  {
    |fr| == |bw| == |src| == |fr'| == |bw'| == |src'| &&
    (forall k :: 0 <= k < |vis| ==> Fills(f, vis[k], fr', bw', src')) &&
    (forall s :: 0 <= s < |src| && fr[s].Some? && bw[s].Some? ==> fr'[s].Some? && bw'[s].Some?) &&
    (forall s :: 0 <= s < |src| ==> src[s] <= src'[s]) &&
    (forall s :: 0 <= s < |src| ==> src'[s] == src[s] || src'[s] in vis)
  }

  /** A loop that ends without an error filled the slot of every marker it turned at:
      `formants[m-1]` and `bandwidths[m-1]` are written for each accepted `formant [m]:`
      marker, and a later marker naming the same slot overwrites it. */
  lemma {:induction false} FormantLoopFills(f: seq<string>, cur: nat, bound: nat,
                                            fr: seq<Option<real>>, bw: seq<Option<real>>, src: seq<int>)
    requires |fr| == |bw| == |src| && SourcesBefore(src, cur)
    ensures var r := FormantLoop(f, cur, bound, fr, bw, src);
      r.Done? ==> LoopFills(f, fr, bw, src, Visited(f, cur, bound, |src|), r.formants, r.bandwidths, r.sources)
    decreases |f| - cur
  {
    var found := FirstMatch(f, FormantMarker, cur);
    if found.None? {
      FormantLoopNone(f, cur, bound, fr, bw, src);
    } else if found.value > bound {
      FormantLoopBeyond(f, cur, bound, fr, bw, src);
    } else {
      var m := found.value;
      var index := MarkerNumber(FormantMarker, f[m]) - 1;
      FormantLoopWrite(f, cur, bound, fr, bw, src);
      var q := FirstMatch(f, Frequency, m);
      var slot := PySlot(index, |fr|);
      if q.Some? && slot.Some? {
        FormantWriteStep(f, m, index, bound, fr, bw, src);
        FormantNotFrequency(f[m]);
        var s := slot.value;
        var x := FieldValue(Frequency, f[q.value]);
        var b := FirstMatch(f, Bandwidth, q.value);
        if b.Some? {
          FrequencyNotBandwidth(f[q.value]);
          var y := FieldValue(Bandwidth, f[b.value]);
          assert FormantLoop(f, cur, bound, fr, bw, src) ==
                 FormantLoop(f, b.value, bound, fr[s := Some(x)], bw[s := Some(y)], src[s := m]);
          assert Visited(f, cur, bound, |src|) == [m] + Visited(f, b.value, bound, |src|);
          FormantLoopFills(f, b.value, bound, fr[s := Some(x)], bw[s := Some(y)], src[s := m]);
          var r := FormantLoop(f, b.value, bound, fr[s := Some(x)], bw[s := Some(y)], src[s := m]);
          if r.Done? {
            FillsStep(f, m, s, fr, bw, src, x, y, Visited(f, b.value, bound, |src|), r.formants, r.bandwidths, r.sources);
          }
        }
      }
    }
  }

  /** A complete turn at marker `m`, writing slot `s`, followed by a loop that turned at
      `vis`, is a loop that turned at `m` and then `vis`. */
  lemma FillsStep(f: seq<string>, m: nat, s: nat, fr: seq<Option<real>>, bw: seq<Option<real>>, src: seq<int>,
                  x: real, y: real, vis: seq<nat>, fr'': seq<Option<real>>, bw'': seq<Option<real>>, src'': seq<int>)
    requires |fr| == |bw| == |src| && s < |src| && SourcesBefore(src, m + 1)
    requires m < |f| && Matches(FormantMarker, f[m]) && FormantSlot(f[m], |src|) == Some(s)
    requires LoopFills(f, fr[s := Some(x)], bw[s := Some(y)], src[s := m], vis, fr'', bw'', src'')
    ensures LoopFills(f, fr, bw, src, [m] + vis, fr'', bw'', src'')
  {
    var all := [m] + vis;
    assert fr[s := Some(x)][s].Some? && bw[s := Some(y)][s].Some?;
    forall k | 0 <= k < |all|
      ensures Fills(f, all[k], fr'', bw'', src'')
    {
      if k > 0 {
        assert all[k] == vis[k - 1];
      }
    }
    forall t | 0 <= t < |src|
      ensures src''[t] == src[t] || src''[t] in all
    {
      if t == s {
        assert src[s := m][t] == m;
      } else {
        assert src[s := m][t] == src[t];
      }
    }
  }
}
