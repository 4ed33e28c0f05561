/** At what time each sample is presented. */
module MuxerTimes {
  import opened Options
  import opened Rounding
  import opened MuxerModel
  import opened MuxerRuns
  import opened MuxerAgreement

  /** What a player makes of a sample. */
  datatype Shown = Shown(dts: int, ptsOffset: int, nonSync: bool, payload: seq<Byte>)

  /** The sum of the first k durations. */
  function Sum(samples: seq<Sample>, k: nat): nat
    requires k <= |samples|
  {
    if k == 0 then 0 else Sum(samples, k - 1) + samples[k - 1].duration
  }

  function ShownSamples(start: int, samples: seq<Sample>): (r: seq<Shown>)
    ensures |r| == |samples|
  {
    seq(|samples|, k requires 0 <= k < |samples| =>
      Shown(start + Sum(samples, k), samples[k].ptsOffset, samples[k].nonSync, samples[k].payload))
  }

  function ShownChunks(chunks: seq<Chunk>): seq<Shown> {
    if chunks == [] then []
    else
      var c := chunks[|chunks| - 1];
      ShownChunks(chunks[..|chunks| - 1]) + ShownSamples(c.baseTime, c.samples)
  }

  // the fragmented muxer

  /** Within a chunk each visible sample is presented at its own time, whatever the durations: a gap that
      does not fit into 32 bits ends the chunk. Samples before the first visible one do not last. */
  lemma {:induction false} ChunkTimes(c: Chunk, h: seq<Item>, end: Option<int>, m: nat, b: nat, timeScale: nat, k: nat)
    requires ChunkIsRight(c, h, end, m, b, timeScale) && NonDecreasing(h) && timeScale <= UINT32 && k < |c.samples|
    ensures c.baseTime + Sum(c.samples, k) == h[Later(m + k, FirstVisible(h))].dts
  {
    if k > 0 {
      ChunkTimes(c, h, end, m, b, timeScale, k - 1);
      var q, v := m + k - 1, FirstVisible(h);
      assert c.samples[k - 1].duration == FDuration(h, q, end);
      if q >= v {
        assert h[q].dts <= h[q + 1].dts <= h[b - 1].dts;
        assert h[Later(m, v)].dts <= h[q].dts;
      }
    }
  }

  /** A sample as it was given, shown at some time. */
  predicate IsShownAs(x: Shown, y: Item) {
    x == Shown(x.dts, y.ptsOffset, y.nonSync, y.payload)
  }

  lemma {:induction false} ChunkShows(c: Chunk, h: seq<Item>, end: Option<int>, m: nat, b: nat, timeScale: nat)
    requires ChunkIsRight(c, h, end, m, b, timeScale)
    ensures var f := ShownSamples(c.baseTime, c.samples);
            |f| == b - m && forall k :: 0 <= k < b - m ==> IsShownAs(f[k], h[m + k])
    ensures NonDecreasing(h) && timeScale <= UINT32 ==>
              forall k :: 0 <= k < b - m ==>
                ShownSamples(c.baseTime, c.samples)[k].dts == h[Later(m + k, FirstVisible(h))].dts
  {
    var f := ShownSamples(c.baseTime, c.samples);
    forall k | 0 <= k < b - m ensures IsShownAs(f[k], h[m + k]) {
      assert c.samples[k] == NewSample(h[m + k]).(duration := FDuration(h, m + k, end));
    }
    if NonDecreasing(h) && timeScale <= UINT32 {
      forall k | 0 <= k < b - m ensures f[k].dts == h[Later(m + k, FirstVisible(h))].dts {
        ChunkTimes(c, h, end, m, b, timeScale, k);
      }
    }
  }

  /** The samples from index a on, each as it was given. */
  predicate ShowFrom(f: seq<Shown>, h: seq<Item>, a: nat) {
    a + |f| <= |h| && forall k :: 0 <= k < |f| ==> IsShownAs(f[k], h[a + k])
  }

  /** Each visible sample at its own time and the ones before it at the time of the first visible one. */
  predicate OnTimeFrom(f: seq<Shown>, h: seq<Item>, a: nat)
    requires FirstVisible(h) < |h|
  {
    a + |f| <= |h| && forall k :: 0 <= k < |f| ==> f[k].dts == h[Later(a + k, FirstVisible(h))].dts
  }

  lemma {:induction false} ChunksShow(
    chunks: seq<Chunk>, h: seq<Item>, end: Option<int>, a: nat, b: nat, timeScale: nat)
    requires ChunksAreRight(chunks, h, end, a, b, timeScale) && FirstVisible(h) < |h| && a <= |h|
    ensures |ShownChunks(chunks)| == b - a && ShowFrom(ShownChunks(chunks), h, a)
    ensures NonDecreasing(h) && timeScale <= UINT32 ==> OnTimeFrom(ShownChunks(chunks), h, a)
    decreases |chunks|
  {
    if chunks != [] {
      var c := chunks[|chunks| - 1];
      var m, front := b - |c.samples|, chunks[..|chunks| - 1];
      ChunksShow(front, h, end, a, m, timeScale);
      ChunkShows(c, h, end, m, b, timeScale);
      ShowAppend(ShownChunks(front), ShownSamples(c.baseTime, c.samples), h, a);
      if NonDecreasing(h) && timeScale <= UINT32 {
        OnTimeAppend(ShownChunks(front), ShownSamples(c.baseTime, c.samples), h, a);
      }
    }
  }

  lemma {:induction false} ShowAppend(f: seq<Shown>, g: seq<Shown>, h: seq<Item>, a: nat)
    requires ShowFrom(f, h, a) && ShowFrom(g, h, a + |f|)
    ensures ShowFrom(f + g, h, a)
  {
    forall k | 0 <= k < |f + g| ensures IsShownAs((f + g)[k], h[a + k]) {
      if k >= |f| {
        assert IsShownAs(g[k - |f|], h[a + |f| + (k - |f|)]);
      }
    }
  }

  lemma {:induction false} OnTimeAppend(f: seq<Shown>, g: seq<Shown>, h: seq<Item>, a: nat)
    requires FirstVisible(h) < |h| && OnTimeFrom(f, h, a) && OnTimeFrom(g, h, a + |f|)
    ensures OnTimeFrom(f + g, h, a)
  {
    forall k | 0 <= k < |f + g| ensures (f + g)[k].dts == h[Later(a + k, FirstVisible(h))].dts {
      if k >= |f| {
        assert g[k - |f|].dts == h[Later(a + |f| + (k - |f|), FirstVisible(h))].dts;
      }
    }
  }

  /** A chunk starts where the previous one ends, unless the gap between them does not fit into 32 bits. */
  lemma {:induction false} ChunksFollow(
    c: Chunk, d: Chunk, h: seq<Item>, end: Option<int>, m: nat, b: nat, e: nat, timeScale: nat)
    requires ChunkIsRight(c, h, end, m, b, timeScale) && ChunkIsRight(d, h, end, b, e, timeScale)
    requires NonDecreasing(h) && timeScale <= UINT32
    ensures d.baseTime == c.baseTime + Sum(c.samples, |c.samples|) <==>
            b <= FirstVisible(h) || h[b].dts - h[b - 1].dts < UINT32
  {
    var n := |c.samples|;
    ChunkTimes(c, h, end, m, b, timeScale, n - 1);
    assert c.samples[n - 1].duration == FDuration(h, b - 1, end);
    assert b > FirstVisible(h) ==> h[b - 1].dts <= h[b].dts;
  }

  // the plain muxer

  function MDuration(h: seq<Item>, q: nat, end: Option<int>): nat
    requires q < |h|
  {
    if q + 1 < |h| then Duration(h[q + 1].dts, h[q].dts)
    else if end.Some? then Duration(end.value, h[q].dts)
    else 0
  }

  function MSample(h: seq<Item>, q: nat, end: Option<int>): Sample
    requires q < |h|
  {
    Sample(if h[q].nonSync then h[q].ptsOffset else 0, h[q].nonSync, h[q].payload, MDuration(h, q, end))
  }

  /** A sample with which the plain muxer starts over: a sync sample that is before the requested start or
      directly follows one that is. */
  predicate Restarts(h: seq<Item>, k: nat)
    requires k < |h|
  {
    !h[k].nonSync && (h[k].dts < 0 || (k > 0 && h[k - 1].dts < 0))
  }

  /** The sample with which the plain muxer started over last. */
  function PlainStart(h: seq<Item>): (g: nat)
    ensures h != [] ==> g < |h|
    ensures g == 0 || (g < |h| && Restarts(h, g))
    ensures forall k :: g < k < |h| ==> !Restarts(h, k)
  {
    if h == [] then 0
    else
      var n := |h| - 1;
      if Restarts(h, n) then n
      else
        var g := PlainStart(h[..n]);
        assert forall k :: 0 <= k < n ==> Restarts(h, k) == Restarts(h[..n], k);
        g
  }

  /** After the first visible sample there is one with which the plain muxer starts over. */
  predicate GoesBack(h: seq<Item>) {
    exists k: nat :: FirstVisible(h) < k < |h| && Restarts(h, k)
  }

  lemma {:induction false} PlainStartSnoc(h: seq<Item>, x: Item)
    ensures PlainStart(h + [x]) == if Restarts(h + [x], |h|) then |h| else PlainStart(h)
  {
    assert (h + [x])[..|h|] == h;
  }

  lemma {:induction false} GoesBackSnoc(h: seq<Item>, x: Item)
    ensures GoesBack(h + [x]) <==> GoesBack(h) || (FirstVisible(h) < |h| && Restarts(h + [x], |h|))
  {
    VisibleIsStable(h, x);
    var h' := h + [x];
    if GoesBack(h) {
      var k: nat :| FirstVisible(h) < k < |h| && Restarts(h, k);
      assert Restarts(h', k);
    }
    if GoesBack(h') {
      var k: nat :| FirstVisible(h') < k < |h'| && Restarts(h', k);
      assert k < |h| ==> Restarts(h, k);
    }
  }

  /** Where the plain muxer starts. */
  lemma {:induction false} PlainStartIs(h: seq<Item>)
    ensures if GoesBack(h) then PlainStart(h) > FirstVisible(h) else PlainStart(h) == GopStart(h)
    decreases |h|
  {
    if h != [] {
      var before, x := h[..|h| - 1], h[|h| - 1];
      assert h == before + [x];
      PlainStartIs(before);
      VisibleIsStable(before, x);
      PlainStartSnoc(before, x);
      GoesBackSnoc(before, x);
    }
  }

  lemma {:induction false} DropsMeansGoesBack(h: seq<Item>)
    ensures Drops(h) ==> GoesBack(h)
    ensures NonDecreasing(h) ==> !GoesBack(h)
  {
    if Drops(h) {
      var k :| FirstVisible(h) < k < |h| && !h[k].nonSync && h[k].dts < 0;
      assert Restarts(h, k);
    }
  }

  /** All samples from index g on. */
  predicate IsRest(samples: seq<Sample>, h: seq<Item>, end: Option<int>, g: nat) {
    && g <= |h| && |samples| == |h| - g
    && forall k :: 0 <= k < |samples| ==> samples[k] == MSample(h, g + k, end)
  }

  predicate MTrackIsRight(t: MTrack, h: seq<Item>, end: Option<int>) {
    if h == [] then t.samples == [] && t.lastDTS == 0
    else
      && IsRest(t.samples, h, end, PlainStart(h))
      && t.timeOffset == Int32(h[PlainStart(h)].dts) && t.lastDTS == h[|h| - 1].dts
  }

  lemma {:induction false} RestGrows(samples: seq<Sample>, h: seq<Item>, end: Option<int>, g: nat, x: Item)
    requires samples != [] && IsRest(samples, h, end, g)
    ensures IsRest(SetLastDuration(samples, Duration(x.dts, h[|h| - 1].dts)) + [MSample([x], 0, None)], h + [x], None,
                   g)
  {
    var h', r := h + [x], SetLastDuration(samples, Duration(x.dts, h[|h| - 1].dts)) + [MSample([x], 0, None)];
    forall k | 0 <= k < |r| ensures r[k] == MSample(h', g + k, None) {
      if k < |samples| {
        assert samples[k] == MSample(h, g + k, end);
      }
    }
  }

  /** The plain muxer holds all samples from the one with which it started over last. */
  lemma {:induction false} MWrite(t: MTrack, h: seq<Item>, end: Option<int>, x: Item)
    requires MTrackIsRight(t, h, end)
    ensures MTrackIsRight(t.Write(x), h + [x], None)
  {
    PlainStartSnoc(h, x);
    if h == [] || Restarts(h + [x], |h|) {
      assert t.Write(x).samples == [MSample(h + [x], |h|, None)];
    } else {
      RestGrows(t.samples, h, end, PlainStart(h), x);
    }
  }

  lemma {:induction false} RestGetsEnd(samples: seq<Sample>, h: seq<Item>, end: Option<int>, g: nat, dts: int)
    requires samples != [] && IsRest(samples, h, end, g)
    ensures IsRest(SetLastDuration(samples, Duration(dts, h[|h| - 1].dts)), h, Some(dts), g)
  {
    var r := SetLastDuration(samples, Duration(dts, h[|h| - 1].dts));
    forall k | 0 <= k < |r| ensures r[k] == MSample(h, g + k, Some(dts)) {
      assert samples[k] == MSample(h, g + k, end);
    }
  }

  lemma {:induction false} MWriteFinal(t: MTrack, h: seq<Item>, end: Option<int>, dts: int)
    requires MTrackIsRight(t, h, end)
    ensures MTrackIsRight(t.WriteFinalDTS(dts), h, Some(dts))
  {
    if h != [] {
      RestGetsEnd(t.samples, h, end, PlainStart(h), dts);
    }
  }

  /** The plain muxer's numbers fit: the first time into 31 bits and a sign, every gap into 32 bits without. */
  predicate Fits(h: seq<Item>) {
    && (h != [] ==> -INT31 <= h[PlainStart(h)].dts < INT31)
    && forall k: nat :: PlainStart(h) + k + 1 < |h| ==> 0 <= Gap(h, k) < UINT32
  }

  lemma {:induction false} DurationIsGapIff(dts: int, lastDTS: int)
    ensures Duration(dts, lastDTS) == dts - lastDTS <==> 0 <= dts - lastDTS < UINT32
  {
  }

  /** The gap after the k-th sample that the plain muxer shows. */
  function Gap(h: seq<Item>, k: nat): int
    requires PlainStart(h) + k + 1 < |h|
  {
    h[PlainStart(h) + k + 1].dts - h[PlainStart(h) + k].dts
  }

  lemma {:induction false} PlainDuration(t: MTrack, h: seq<Item>, end: Option<int>, k: nat)
    requires MTrackIsRight(t, h, end) && k + 1 < |t.samples|
    ensures PlainStart(h) + |t.samples| == |h|
    ensures t.samples[k].duration == Gap(h, k) <==> 0 <= Gap(h, k) < UINT32
  {
    var q := PlainStart(h) + k;
    assert t.samples[k] == MSample(h, q, end);
    DurationIsGapIff(h[q + 1].dts, h[q].dts);
  }

  lemma {:induction false} SumOfGaps(samples: seq<Sample>, h: seq<Item>, k: nat)
    requires PlainStart(h) + |samples| == |h| && k < |samples|
    requires forall j: nat :: j < k ==> samples[j].duration == Gap(h, j)
    ensures Sum(samples, k) == h[PlainStart(h) + k].dts - h[PlainStart(h)].dts
  {
    if k > 0 {
      SumOfGaps(samples, h, k - 1);
      assert samples[k - 1].duration == Gap(h, k - 1);
    }
  }

  lemma {:induction false} Int32Iff(x: int)
    ensures Int32(x) == x <==> -INT31 <= x < INT31
  {
  }

  lemma {:induction false} FittingTimes(t: MTrack, h: seq<Item>, end: Option<int>, k: nat)
    requires MTrackIsRight(t, h, end) && k < |t.samples| && Fits(h)
    ensures t.timeOffset + Sum(t.samples, k) == h[PlainStart(h) + k].dts
  {
    Int32Iff(h[PlainStart(h)].dts);
    forall j: nat | j < k ensures t.samples[j].duration == Gap(h, j) {
      PlainDuration(t, h, end, j);
    }
    SumOfGaps(t.samples, h, k);
  }

  // both muxers, one track

  /** The same samples in the same order, from the last sync sample at or before the first visible one; the
      plain muxer drops the presentation offsets of sync samples. */
  predicate SameShow(f: seq<Shown>, m: seq<Shown>, h: seq<Item>) {
    && |f| == |m| == |h| - GopStart(h)
    && ShowFrom(f, h, GopStart(h))
    && forall k :: 0 <= k < |f| ==>
       m[k] == f[k].(dts := m[k].dts, ptsOffset := if f[k].nonSync then f[k].ptsOffset else 0)
  }

  /** Every sample from index a on, as the plain muxer shows it. */
  predicate PlainFrom(m: seq<Shown>, h: seq<Item>, a: nat) {
    && a + |m| == |h|
    && forall k :: 0 <= k < |m| ==>
         var x := h[a + k];
         m[k] == Shown(m[k].dts, if x.nonSync then x.ptsOffset else 0, x.nonSync, x.payload)
  }

  /** Every sample is shown at its own time. */
  predicate IsExact(m: seq<Shown>, h: seq<Item>)
    requires PlainStart(h) + |m| == |h|
  {
    forall k :: 0 <= k < |m| ==> m[k].dts == h[PlainStart(h) + k].dts
  }

  lemma {:induction false} PlainShows(t: MTrack, h: seq<Item>, end: Option<int>)
    requires MTrackIsRight(t, h, end)
    ensures PlainFrom(ShownSamples(t.timeOffset, t.samples), h, PlainStart(h))
  {
    var m := ShownSamples(t.timeOffset, t.samples);
    forall k | 0 <= k < |m| ensures t.samples[k] == MSample(h, PlainStart(h) + k, end) {
    }
  }

  /** When a number does not fit, some sample is shown at the wrong time. */
  lemma {:induction false} WrongTime(t: MTrack, h: seq<Item>, end: Option<int>) returns (k: nat)
    requires MTrackIsRight(t, h, end) && !Fits(h)
    ensures k < |t.samples| && t.timeOffset + Sum(t.samples, k) != h[PlainStart(h) + k].dts
  {
    Int32Iff(h[PlainStart(h)].dts);
    k := 0;
    if -INT31 <= h[PlainStart(h)].dts < INT31 {
      k :| PlainStart(h) + k + 1 < |h| && !(0 <= Gap(h, k) < UINT32);
      PlainDuration(t, h, end, k);
      assert Sum(t.samples, k + 1) == Sum(t.samples, k) + t.samples[k].duration;
      if t.timeOffset + Sum(t.samples, k) == h[PlainStart(h) + k].dts {
        k := k + 1;
      }
    }
  }

  /** Whatever the times of a track, the plain muxer shows it on time if and only if the numbers fit. */
  lemma {:induction false} PlainIsExactIff(t: MTrack, h: seq<Item>, end: Option<int>)
    requires MTrackIsRight(t, h, end)
    ensures PlainFrom(ShownSamples(t.timeOffset, t.samples), h, PlainStart(h))
    ensures IsExact(ShownSamples(t.timeOffset, t.samples), h) <==> Fits(h)
  {
    var g, m := PlainStart(h), ShownSamples(t.timeOffset, t.samples);
    PlainShows(t, h, end);
    if Fits(h) {
      forall k | 0 <= k < |m| ensures m[k].dts == h[g + k].dts {
        FittingTimes(t, h, end, k);
      }
    } else {
      var k := WrongTime(t, h, end);
      assert m[k].dts != h[g + k].dts;
    }
  }

  /** A sample shown at some time. */
  predicate Shows(x: Shown, y: Sample) {
    x == Shown(x.dts, y.ptsOffset, y.nonSync, y.payload)
  }

  predicate AllShow(f: seq<Shown>, samples: seq<Sample>) {
    |f| == |samples| && forall k :: 0 <= k < |f| ==> Shows(f[k], samples[k])
  }

  lemma {:induction false} AllShowAppend(f: seq<Shown>, samples: seq<Sample>, start: int, more: seq<Sample>)
    requires AllShow(f, samples)
    ensures AllShow(f + ShownSamples(start, more), samples + more)
  {
    var g := ShownSamples(start, more);
    forall k | 0 <= k < |f + g| ensures Shows((f + g)[k], (samples + more)[k]) {
      if k >= |f| {
        assert Shows(g[k - |f|], more[k - |f|]);
      }
    }
  }

  lemma {:induction false} ShownOfAll(chunks: seq<Chunk>)
    ensures AllShow(ShownChunks(chunks), AllSamples(chunks))
    decreases |chunks|
  {
    if chunks != [] {
      var front, c := chunks[..|chunks| - 1], chunks[|chunks| - 1];
      ShownOfAll(front);
      AllShowAppend(ShownChunks(front), AllSamples(front), c.baseTime, c.samples);
    }
  }

  /** All samples from the last sync sample at or before the first visible one, each as it was given. */
  predicate ShowsAll(f: seq<Shown>, h: seq<Item>) {
    |f| == |h| - GopStart(h) && ShowFrom(f, h, GopStart(h))
  }

  lemma {:induction false} HeldAreShown(chunks: seq<Chunk>, h: seq<Item>)
    requires AreFrom(AllSamples(chunks), h, GopStart(h))
    ensures ShowsAll(ShownChunks(chunks), h)
  {
    ShownOfAll(chunks);
    var f, g := ShownChunks(chunks), GopStart(h);
    forall k | 0 <= k < |f| ensures IsShownAs(f[k], h[g + k]) {
      assert Shows(f[k], AllSamples(chunks)[k]) && AllSamples(chunks)[k].(duration := 0) == NewSample(h[g + k]);
    }
  }

  /** What is shown of one track, given what both muxers hold of it at the end. */
  lemma {:induction false} TrackAgrees(chunks: seq<Chunk>, m: seq<Shown>, h: seq<Item>)
    requires if Drops(h) then |AllSamples(chunks)| < |h| - GopStart(h) else AreFrom(AllSamples(chunks), h, GopStart(h))
    requires PlainFrom(m, h, PlainStart(h))
    ensures ShowsAll(ShownChunks(chunks), h) <==> !Drops(h)
    ensures SameShow(ShownChunks(chunks), m, h) <==> !GoesBack(h)
  {
    PlainStartIs(h);
    DropsMeansGoesBack(h);
    ShownOfAll(chunks);
    if !Drops(h) {
      HeldAreShown(chunks, h);
    }
  }

  // all tracks

  function MRun(timeScales: seq<nat>, calls: seq<Call>): (s: MState)
    requires ValidCalls(calls, |timeScales|)
    ensures s.Valid() && |s.tracks| == |timeScales| && s.current == Current(calls)
  {
    if calls == [] then MCreate(timeScales)
    else MRun(timeScales, calls[..|calls| - 1]).Step(calls[|calls| - 1])
  }

  lemma {:induction false} MStep(s: MState, before: seq<Call>, c: Call, i: nat)
    requires s.Valid() && i < |s.tracks| && (if c.SetTrack? then c.track < |s.tracks| else s.current.Some?)
    requires s.current == Current(before)
    requires MTrackIsRight(s.tracks[i], History(before, i), FinalDTS(before, i))
    ensures MTrackIsRight(s.Step(c).tracks[i], History(before + [c], i), FinalDTS(before + [c], i))
  {
    HistorySnoc(before, c, i);
    if Current(before) == Some(i) && c.WriteSample? {
      MWrite(s.tracks[i], History(before, i), FinalDTS(before, i), c.item);
    } else if Current(before) == Some(i) && c.WriteFinalDTS? {
      MWriteFinal(s.tracks[i], History(before, i), FinalDTS(before, i), c.dts);
    }
  }

  lemma {:induction false} MRunIsRight(timeScales: seq<nat>, calls: seq<Call>, i: nat)
    requires ValidCalls(calls, |timeScales|) && i < |timeScales|
    ensures MTrackIsRight(MRun(timeScales, calls).tracks[i], History(calls, i), FinalDTS(calls, i))
    decreases |calls|
  {
    if calls != [] {
      var before, c := calls[..|calls| - 1], calls[|calls| - 1];
      assert calls == before + [c];
      MRunIsRight(timeScales, before, i);
      MStep(MRun(timeScales, before), before, c, i);
    }
  }

  /** The output of the fragmented muxer after the final flush. */
  function FOutput(timeScales: seq<nat>, calls: seq<Call>): FState
    requires ValidCalls(calls, |timeScales|)
  {
    FRun(timeScales, calls).Flush(true)
  }

  predicate IsVisible(calls: seq<Call>, i: nat) {
    FirstVisible(History(calls, i)) < |History(calls, i)|
  }

  lemma {:induction false} FinalChunks(timeScales: seq<nat>, calls: seq<Call>, i: nat)
    requires Proper(timeScales, calls) && i < |timeScales| && IsVisible(calls, i)
    ensures var chunks, h := OfTrack(FOutput(timeScales, calls).parts, i), History(calls, i);
            && (if Drops(h) then |AllSamples(chunks)| < |h| - GopStart(h)
                else AreFrom(AllSamples(chunks), h, GopStart(h)))
            && (StaysVisible(h) ==> ChunksAreRight(chunks, h, FinalDTS(calls, i), GopStart(h), |h|, timeScales[i]))
  {
    FRunIsRight(timeScales, calls);
    var s := FRun(timeScales, calls);
    var h := History(calls, i);
    assert TrackIsRight(s, calls, i);
    FinalHolds(s.tracks[i], OfTrack(s.parts, i), h);
    if StaysVisible(h) {
      FFlushFinal(s.tracks[i], OfTrack(s.parts, i), h, FinalDTS(calls, i));
    }
    var chunks := s.Chunks(true);
    OfTrackSnoc(s.parts, Part(s.nextSequenceNumber, chunks), i);
    assert i in chunks <==> s.tracks[i].HasChunk(true);
    assert OfTrack(FOutput(timeScales, calls).parts, i) == OfTrack(s.parts, i) + ChunkOf(s.tracks[i], true);
  }

  function PlainOutput(timeScales: seq<nat>, calls: seq<Call>, i: nat): seq<Shown>
    requires ValidCalls(calls, |timeScales|) && i < |timeScales|
  {
    var t := MRun(timeScales, calls).tracks[i];
    ShownSamples(t.timeOffset, t.samples)
  }

  function FragmentedOutput(timeScales: seq<nat>, calls: seq<Call>, i: nat): seq<Shown>
    requires ValidCalls(calls, |timeScales|) && i < |timeScales|
  {
    ShownChunks(OfTrack(FOutput(timeScales, calls).parts, i))
  }

  lemma {:induction false} TimesAgree(timeScales: seq<nat>, calls: seq<Call>, i: nat)
    requires Proper(timeScales, calls) && i < |timeScales| && IsVisible(calls, i) && timeScales[i] <= UINT32
    requires NonDecreasing(History(calls, i))
    ensures OnTimeFrom(FragmentedOutput(timeScales, calls, i), History(calls, i), GopStart(History(calls, i)))
  {
    var h := History(calls, i);
    FinalChunks(timeScales, calls, i);
    OrderedStaysVisible(h);
    ChunksShow(OfTrack(FOutput(timeScales, calls).parts, i), h, FinalDTS(calls, i), GopStart(h), |h|, timeScales[i]);
  }

  /** For every track that shows anything: the fragmented muxer shows everything that is needed if and only if
      no sync sample from before the requested start follows a visible one; the plain one shows everything from
      the sample with which it started over last; so both show the same if and only if that is not after the
      first visible one. If the times never decrease, the fragmented one shows each sample on time, and the
      plain one does, whatever the times, if and only if its numbers fit. */
  lemma {:induction false} MuxersAgree(timeScales: seq<nat>, calls: seq<Call>, i: nat)
    requires Proper(timeScales, calls) && i < |timeScales| && IsVisible(calls, i)
    ensures ShowsAll(FragmentedOutput(timeScales, calls, i), History(calls, i)) <==> !Drops(History(calls, i))
    ensures PlainFrom(PlainOutput(timeScales, calls, i), History(calls, i), PlainStart(History(calls, i)))
    ensures SameShow(FragmentedOutput(timeScales, calls, i), PlainOutput(timeScales, calls, i), History(calls, i)) <==>
            !GoesBack(History(calls, i))
    ensures NonDecreasing(History(calls, i)) ==> !GoesBack(History(calls, i))
    ensures NonDecreasing(History(calls, i)) && timeScales[i] <= UINT32 ==>
              OnTimeFrom(FragmentedOutput(timeScales, calls, i), History(calls, i), GopStart(History(calls, i)))
    ensures IsExact(PlainOutput(timeScales, calls, i), History(calls, i)) <==> Fits(History(calls, i))
  {
    var h := History(calls, i);
    FinalChunks(timeScales, calls, i);
    MRunIsRight(timeScales, calls, i);
    PlainIsExactIff(MRun(timeScales, calls).tracks[i], h, FinalDTS(calls, i));
    TrackAgrees(OfTrack(FOutput(timeScales, calls).parts, i), PlainOutput(timeScales, calls, i), h);
    DropsMeansGoesBack(h);
    if NonDecreasing(h) && timeScales[i] <= UINT32 {
      TimesAgree(timeScales, calls, i);
    }
  }

  // failures

  /** The last sample of a track, if it has any, is not before the requested start. */
  predicate EndsVisible(calls: seq<Call>, i: nat) {
    var h := History(calls, i);
    h != [] && h[|h| - 1].dts >= 0
  }

  lemma {:induction false} PlainFails(timeScales: seq<nat>, calls: seq<Call>)
    requires ValidCalls(calls, |timeScales|) && Current(calls).Some?
    ensures MRun(timeScales, calls).Fails() <==> !EndsVisible(calls, Current(calls).value)
  {
    var c := Current(calls).value;
    assert MRun(timeScales, calls).Valid();
    MRunIsRight(timeScales, calls, c);
  }

  lemma {:induction false} FinalFlush(s: FState, calls: seq<Call>)
    requires s.Valid() && RunIsRight(s, calls)
    ensures s.Flush(true).failed <==> forall i: nat :: i < |s.tracks| ==> !IsVisible(calls, i)
  {
    forall i: nat | i < |s.tracks| ensures i in s.Chunks(true) <==> IsVisible(calls, i) {
      assert TrackIsRight(s, calls, i);
    }
    if s.parts != [] {
      SomethingWritten(s, calls);
    }
  }

  /** The fragmented muxer finds nothing to write if and only if no track shows anything; the plain one
      if and only if the track that was set last has no sample, or its last one is before the requested start.
      With one track they fail together, unless a visible sample is followed by one from before the start. */
  lemma {:induction false} FailuresCharacterized(timeScales: seq<nat>, calls: seq<Call>)
    requires Proper(timeScales, calls) && Current(calls).Some?
    ensures FOutput(timeScales, calls).failed <==> forall i: nat :: i < |timeScales| ==> !IsVisible(calls, i)
    ensures MRun(timeScales, calls).Fails() <==> !EndsVisible(calls, Current(calls).value)
    ensures |timeScales| == 1 ==>
              ((FOutput(timeScales, calls).failed <==> MRun(timeScales, calls).Fails()) <==>
               (IsVisible(calls, 0) ==> EndsVisible(calls, 0)))
  {
    PlainFails(timeScales, calls);
    FragmentedFails(timeScales, calls);
    if |timeScales| == 1 {
      OnlyTrack(timeScales, calls);
    }
  }

  lemma {:induction false} VisibleAtTheEnd(h: seq<Item>)
    requires h != [] && h[|h| - 1].dts >= 0
    ensures FirstVisible(h) < |h|
  {
  }

  lemma {:induction false} OnlyTrack(timeScales: seq<nat>, calls: seq<Call>)
    requires |timeScales| == 1 && ValidCalls(calls, 1) && Current(calls).Some?
    ensures Current(calls) == Some(0)
    ensures (forall i: nat :: i < |timeScales| ==> !IsVisible(calls, i)) <==> !IsVisible(calls, 0)
    ensures EndsVisible(calls, 0) ==> IsVisible(calls, 0)
  {
    assert MRun(timeScales, calls).Valid();
    if EndsVisible(calls, 0) {
      VisibleAtTheEnd(History(calls, 0));
    }
    if !IsVisible(calls, 0) {
      forall i: nat | i < |timeScales| ensures !IsVisible(calls, i) {
        assert i == 0;
      }
    }
  }

  lemma {:induction false} FragmentedFails(timeScales: seq<nat>, calls: seq<Call>)
    requires Proper(timeScales, calls)
    ensures FOutput(timeScales, calls).failed <==> forall i: nat :: i < |timeScales| ==> !IsVisible(calls, i)
  {
    FRunIsRight(timeScales, calls);
    FinalFlush(FRun(timeScales, calls), calls);
  }

  /** A part has been written only if a track has become visible. */
  lemma {:induction false} SomethingWritten(s: FState, calls: seq<Call>)
    requires RunIsRight(s, calls) && s.parts != []
    ensures exists i: nat :: i < |s.tracks| && IsVisible(calls, i)
  {
    var p := s.parts[|s.parts| - 1];
    assert p.chunks != map[];
    var i :| i in p.chunks;
    assert s.parts == s.parts[..|s.parts| - 1] + [p];
    OfTrackSnoc(s.parts[..|s.parts| - 1], p, i);
    assert OfTrack(s.parts, i) != [];
    assert TrackIsRight(s, calls, i);
    assert IsVisible(calls, i);
  }

  function OneSampleEach(x: Item, y: Item): seq<Call> {
    [] + [SetTrack(0)] + [WriteSample(x)] + [SetTrack(1)] + [WriteSample(y)]
  }

  lemma {:induction false} OneSampleEachHistory(x: Item, y: Item, i: nat)
    ensures History(OneSampleEach(x, y), i) == if i == 0 then [x] else if i == 1 then [y] else []
  {
    var c0: seq<Call> := [];
    HistorySnoc(c0, SetTrack(0), i);
    HistorySnoc(c0 + [SetTrack(0)], WriteSample(x), i);
    HistorySnoc(c0 + [SetTrack(0)] + [WriteSample(x)], SetTrack(1), i);
    HistorySnoc(c0 + [SetTrack(0)] + [WriteSample(x)] + [SetTrack(1)], WriteSample(y), i);
    CallsSnoc(c0, SetTrack(0), 2);
    CallsSnoc(c0 + [SetTrack(0)], WriteSample(x), 2);
    CallsSnoc(c0 + [SetTrack(0)] + [WriteSample(x)], SetTrack(1), 2);
  }

  lemma {:induction false} OneSampleEachIsValid(x: Item, y: Item)
    ensures ValidCalls(OneSampleEach(x, y), 2) && Current(OneSampleEach(x, y)) == Some(1)
  {
    var c0: seq<Call> := [];
    CallsSnoc(c0, SetTrack(0), 2);
    CallsSnoc(c0 + [SetTrack(0)], WriteSample(x), 2);
    CallsSnoc(c0 + [SetTrack(0)] + [WriteSample(x)], SetTrack(1), 2);
    CallsSnoc(c0 + [SetTrack(0)] + [WriteSample(x)] + [SetTrack(1)], WriteSample(y), 2);
  }

  lemma {:induction false} OneSample(x: Item)
    ensures FirstVisible([x]) == if x.dts >= 0 then 0 else 1
  {
    assert [x][..0] == [];
  }

  lemma {:induction false} OnlyThePlainMuxerFails(timeScales: seq<nat>, calls: seq<Call>, x: Item, y: Item)
    requires Proper(timeScales, calls) && |timeScales| == 2 && x.dts >= 0 > y.dts
    requires Current(calls) == Some(1) && History(calls, 0) == [x] && History(calls, 1) == [y]
    ensures !FOutput(timeScales, calls).failed && MRun(timeScales, calls).Fails()
  {
    OneSample(x);
    OneSample(y);
    FailuresCharacterized(timeScales, calls);
    assert IsVisible(calls, 0) && !IsVisible(calls, 1);
  }

  /** With two tracks, of which the last one shows nothing, only the plain muxer gives up. */
  lemma {:induction false} TwoTracksExample(timeScales: seq<nat>, x: Item, y: Item)
    requires |timeScales| == 2 && timeScales[0] > 0 && timeScales[1] > 0 && x.dts >= 0 > y.dts
    ensures ValidCalls(OneSampleEach(x, y), |timeScales|)
    ensures !FOutput(timeScales, OneSampleEach(x, y)).failed && MRun(timeScales, OneSampleEach(x, y)).Fails()
  {
    OneSampleEachIsValid(x, y);
    OneSampleEachHistory(x, y, 0);
    OneSampleEachHistory(x, y, 1);
    OnlyThePlainMuxerFails(timeScales, OneSampleEach(x, y), x, y);
  }

  // tracks that go back

  function TwoSamples(x: Item, y: Item): seq<Call> {
    ([] + [SetTrack(0)] + [WriteSample(x)]) + [WriteSample(y)]
  }

  lemma {:induction false} OneSampleRuns(timeScale: nat, x: Item)
    requires timeScale > 0 && x.dts >= 0
    ensures var calls := [] + [SetTrack(0)] + [WriteSample(x)];
            && ValidCalls(calls, 1)
            && FRun([timeScale], calls) ==
               FState(Some(0), [FTrack(timeScale, x.dts, x.dts, [NewSample(x)])], true, 0, [], false)
            && MRun([timeScale], calls).current == Some(0)
  {
    var c0: seq<Call> := [];
    var s := FCreate([timeScale]);
    CallsSnoc(c0, SetTrack(0), 1);
    CallsSnoc(c0 + [SetTrack(0)], WriteSample(x), 1);
    assert (c0 + [SetTrack(0)])[..0] == c0 && ((c0 + [SetTrack(0)]) + [WriteSample(x)])[..1] == c0 + [SetTrack(0)];
    assert FRun([timeScale], c0 + [SetTrack(0)]) == s.(current := Some(0));
    assert s.tracks[0] == FTrack(timeScale, -1, 0, []);
    SecondInTicks(timeScale);
    assert [] + [NewSample(x)] == [NewSample(x)];
    var t := s.tracks[0].Write(x);
    assert t == FTrack(timeScale, x.dts, x.dts, [NewSample(x)]) && !t.IsFull();
    assert s.tracks[0 := t] == [t];
  }

  /** A track that goes back before the requested start is shown differently: the fragmented muxer shows the
      sample from before the start in place of the visible one, the plain one finds nothing to show. */
  lemma {:induction false} GoingBackExample(timeScale: nat, x: Item, y: Item)
    requires timeScale > 0 && x.dts >= 0 > y.dts && !y.nonSync
    ensures ValidCalls(TwoSamples(x, y), 1)
    ensures FragmentedOutput([timeScale], TwoSamples(x, y), 0) == [Shown(x.dts, y.ptsOffset, y.nonSync, y.payload)]
    ensures MRun([timeScale], TwoSamples(x, y)).Fails()
  {
    var before, calls := [] + [SetTrack(0)] + [WriteSample(x)], TwoSamples(x, y);
    OneSampleRuns(timeScale, x);
    CallsSnoc(before, WriteSample(y), 1);
    assert calls[..|before|] == before;
    var t := FTrack(timeScale, x.dts, x.dts, [] + [NewSample(y)]);
    assert FRun([timeScale], calls) ==
           FState(Some(0), [FTrack(timeScale, x.dts, x.dts, [NewSample(x)])][0 := t], true, 0, [], false);
    LastFlush(FRun([timeScale], calls), t);
    assert MRun([timeScale], calls) == MRun([timeScale], before).Step(WriteSample(y));
  }

  lemma {:induction false} OneChunkShows(c: Chunk)
    requires |c.samples| == 1
    ensures ShownChunks([] + [c]) ==
            [Shown(c.baseTime, c.samples[0].ptsOffset, c.samples[0].nonSync, c.samples[0].payload)]
  {
    assert ([] + [c])[..0] == [];
    assert ShownChunks([] + [c]) == ShownChunks([]) + ShownSamples(c.baseTime, c.samples);
  }

  lemma {:induction false} LastFlush(s: FState, t: FTrack)
    requires s.Valid() && s.tracks == [t] && |t.samples| == 1 && t.firstDTS >= 0 && s.parts == []
    ensures ShownChunks(OfTrack(s.Flush(true).parts, 0)) ==
            [Shown(t.firstDTS, t.samples[0].ptsOffset, t.samples[0].nonSync, t.samples[0].payload)]
  {
    var chunks := s.Chunks(true);
    assert 0 in chunks && chunks[0] == Chunk(t.firstDTS, t.samples);
    var p := Part(s.nextSequenceNumber, chunks);
    OfTrackSnoc([], p, 0);
    OneChunkShows(Chunk(t.firstDTS, t.samples));
  }
}
