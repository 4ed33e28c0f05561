/** What the two muxers present after any sequence of calls. */
module MuxerRuns {
  import opened Options
  import opened Rounding
  import opened MuxerModel

  // what a muxer has been given

  /** The samples of one track. */
  function History(calls: seq<Call>, i: nat): seq<Item> {
    if calls == [] then []
    else
      var before, c := calls[..|calls| - 1], calls[|calls| - 1];
      History(before, i) + (if c.WriteSample? && Current(before) == Some(i) then [c.item] else [])
  }

  /** The end of the last sample of one track, if it was given. */
  function FinalDTS(calls: seq<Call>, i: nat): Option<int> {
    if calls == [] then None
    else
      var before, c := calls[..|calls| - 1], calls[|calls| - 1];
      if Current(before) != Some(i) || c.SetTrack? then FinalDTS(before, i)
      else if c.WriteSample? then None
      else Some(c.dts)
  }

  lemma {:induction false} CallsSnoc(before: seq<Call>, c: Call, n: nat)
    ensures Current(before + [c]) == if c.SetTrack? then Some(c.track) else Current(before)
    ensures ValidCalls(before + [c], n) <==>
            ValidCalls(before, n) && (if c.SetTrack? then c.track < n else Current(before).Some?)
  {
    assert (before + [c])[..|before|] == before;
  }

  lemma {:induction false} HistorySnoc(before: seq<Call>, c: Call, i: nat)
    ensures History(before + [c], i) ==
            (if c.WriteSample? && Current(before) == Some(i) then History(before, i) + [c.item] else History(before, i))
    ensures FinalDTS(before + [c], i) ==
            (if Current(before) != Some(i) || c.SetTrack? then FinalDTS(before, i)
             else if c.WriteSample? then None else Some(c.dts))
  {
    assert (before + [c])[..|before|] == before;
  }

  predicate NonDecreasing(h: seq<Item>) {
    forall j, k :: 0 <= j <= k < |h| ==> h[j].dts <= h[k].dts
  }

  /** The index of the first sample that is not before the requested start. */
  function FirstVisible(h: seq<Item>): (v: nat)
    ensures v <= |h|
    ensures v < |h| ==> h[v].dts >= 0
    ensures forall k :: 0 <= k < v ==> h[k].dts < 0
  {
    if h == [] then 0
    else
      var n := |h| - 1;
      var v := FirstVisible(h[..n]);
      if v < n || h[n].dts >= 0 then v else n + 1
  }

  /** The first sample that is needed to show the first visible one. */
  function GopStart(h: seq<Item>): (g: nat)
    ensures g <= FirstVisible(h) && (h != [] ==> g < |h|)
    ensures g == 0 || !h[g].nonSync
    ensures forall k :: g < k < |h| && k <= FirstVisible(h) ==> h[k].nonSync
  {
    if h == [] then 0
    else
      var n := |h| - 1;
      if FirstVisible(h[..n]) == n && !h[n].nonSync then n else GopStart(h[..n])
  }

  lemma {:induction false} VisibleIsStable(h: seq<Item>, x: Item)
    ensures var v := FirstVisible(h);
            && FirstVisible(h + [x]) == (if v < |h| || x.dts >= 0 then v else |h| + 1)
            && GopStart(h + [x]) == (if v == |h| && !x.nonSync then |h| else GopStart(h))
  {
    assert (h + [x])[..|h|] == h;
  }

  /** Once a sample is not before the requested start, none after it is. */
  predicate StaysVisible(h: seq<Item>) {
    forall k :: FirstVisible(h) <= k < |h| ==> h[k].dts >= 0
  }

  lemma {:induction false} OrderedStaysVisible(h: seq<Item>)
    requires NonDecreasing(h)
    ensures StaysVisible(h)
  {
  }

  lemma {:induction false} StaysVisiblePrefix(h: seq<Item>, x: Item)
    requires StaysVisible(h + [x])
    ensures StaysVisible(h) && (FirstVisible(h) < |h| ==> x.dts >= 0)
  {
    VisibleIsStable(h, x);
    assert (h + [x])[|h|] == x;
    assert forall k :: 0 <= k < |h| ==> (h + [x])[k] == h[k];
  }

  // the fragmented muxer, one track

  function FDuration(h: seq<Item>, q: nat, end: Option<int>): nat
    requires q < |h|
  {
    if q < FirstVisible(h) then 0
    else if q + 1 < |h| then Duration(h[q + 1].dts, h[q].dts)
    else if end.Some? then Duration(end.value, h[q].dts)
    else 0
  }

  /** The samples are those of the history from index a on, and last until their successors. */
  predicate IsSlice(samples: seq<Sample>, h: seq<Item>, end: Option<int>, a: nat) {
    && a + |samples| <= |h|
    && forall k :: 0 <= k < |samples| ==> samples[k] == NewSample(h[a + k]).(duration := FDuration(h, a + k, end))
  }

  function Later(a: nat, b: nat): nat {
    if a >= b then a else b
  }

  /** A chunk holds the samples from m to b, and starts when the first visible one of them does. */
  predicate ChunkIsRight(c: Chunk, h: seq<Item>, end: Option<int>, m: nat, b: nat, timeScale: nat) {
    var v := FirstVisible(h);
    && m < b <= |h| && v <= b && v < |h| && Later(m, v) < |h|
    && IsSlice(c.samples, h, end, m) && |c.samples| == b - m
    && c.baseTime == h[Later(m, v)].dts
    && (v < b ==> h[b - 1].dts - c.baseTime < timeScale)
  }

  /** The chunks hold the samples from a to b. */
  predicate ChunksAreRight(chunks: seq<Chunk>, h: seq<Item>, end: Option<int>, a: nat, b: nat, timeScale: nat) {
    if chunks == [] then a == b
    else
      var c := chunks[|chunks| - 1];
      && a + |c.samples| <= b
      && ChunksAreRight(chunks[..|chunks| - 1], h, end, a, b - |c.samples|, timeScale)
      && ChunkIsRight(c, h, end, b - |c.samples|, b, timeScale)
  }

  /** A track that has not shown anything holds the samples that the first visible one may need. */
  predicate HiddenIsRight(t: FTrack, chunks: seq<Chunk>, h: seq<Item>, end: Option<int>) {
    && t.firstDTS < 0 && chunks == []
    && |t.samples| <= |h| && |h| - |t.samples| == GopStart(h) && IsSlice(t.samples, h, end, GopStart(h))
  }

  /** The samples that are still in memory belong to a chunk that has not lasted too long. */
  predicate TailIsRight(t: FTrack, h: seq<Item>, end: Option<int>)
    requires FirstVisible(h) < |h|
  {
    && 0 < |t.samples| <= |h|
    && var c := |h| - |t.samples|;
    && IsSlice(t.samples, h, end, c)
    && t.firstDTS == h[Later(c, FirstVisible(h))].dts && t.lastDTS == h[|h| - 1].dts
    && (Later(c, FirstVisible(h)) <= |h| - 2 ==> h[|h| - 2].dts - t.firstDTS < t.timeScale)
  }

  predicate ShownIsConsistent(t: FTrack, chunks: seq<Chunk>, h: seq<Item>, end: Option<int>)
    requires FirstVisible(h) < |h|
  {
    && TailIsRight(t, h, end)
    && ChunksAreRight(chunks, h, end, GopStart(h), |h| - |t.samples|, t.timeScale)
  }

  predicate FTrackIsConsistent(t: FTrack, chunks: seq<Chunk>, h: seq<Item>, end: Option<int>) {
    if FirstVisible(h) == |h| then HiddenIsRight(t, chunks, h, end) else ShownIsConsistent(t, chunks, h, end)
  }

  predicate FTrackIsRight(t: FTrack, chunks: seq<Chunk>, h: seq<Item>, end: Option<int>) {
    && FTrackIsConsistent(t, chunks, h, end)
    && (t.firstDTS >= 0 ==> t.lastDTS - t.firstDTS < t.timeScale)
  }

  lemma {:induction false} SliceIsStable(samples: seq<Sample>, h: seq<Item>, end: Option<int>, a: nat, x: Item)
    requires IsSlice(samples, h, end, a) && a + |samples| < |h|
    ensures IsSlice(samples, h + [x], None, a)
  {
    VisibleIsStable(h, x);
  }

  lemma {:induction false} ChunksAreStable(
    chunks: seq<Chunk>, h: seq<Item>, end: Option<int>, a: nat, b: nat, timeScale: nat, x: Item)
    requires ChunksAreRight(chunks, h, end, a, b, timeScale) && b < |h| && FirstVisible(h) < |h|
    ensures ChunksAreRight(chunks, h + [x], None, a, b, timeScale)
  {
    if chunks != [] {
      var c := chunks[|chunks| - 1];
      ChunksAreStable(chunks[..|chunks| - 1], h, end, a, b - |c.samples|, timeScale, x);
      SliceIsStable(c.samples, h, end, b - |c.samples|, x);
      VisibleIsStable(h, x);
    }
  }

  lemma {:induction false} ChunksIgnoreEnd(
    chunks: seq<Chunk>, h: seq<Item>, end: Option<int>, other: Option<int>, a: nat, b: nat, timeScale: nat)
    requires ChunksAreRight(chunks, h, end, a, b, timeScale) && b < |h|
    ensures ChunksAreRight(chunks, h, other, a, b, timeScale)
  {
    if chunks != [] {
      var c := chunks[|chunks| - 1];
      ChunksIgnoreEnd(chunks[..|chunks| - 1], h, end, other, a, b - |c.samples|, timeScale);
    }
  }

  lemma {:induction false} FirstVisibleTime(t: FTrack, chunks: seq<Chunk>, h: seq<Item>, end: Option<int>)
    requires FTrackIsConsistent(t, chunks, h, end) && StaysVisible(h)
    ensures t.firstDTS >= 0 <==> FirstVisible(h) < |h|
  {
  }

  lemma {:induction false} EarlierDuration(h: seq<Item>, x: Item, q: nat, end: Option<int>)
    requires q < |h| && FirstVisible(h) < |h|
    ensures FDuration(h + [x], q, None) == if q == |h| - 1 then Duration(x.dts, h[q].dts) else FDuration(h, q, end)
  {
    VisibleIsStable(h, x);
  }

  lemma {:induction false} SliceGrows(samples: seq<Sample>, h: seq<Item>, end: Option<int>, x: Item)
    requires samples != [] && |samples| <= |h| && IsSlice(samples, h, end, |h| - |samples|) && FirstVisible(h) < |h|
    ensures IsSlice(SetLastDuration(samples, Duration(x.dts, h[|h| - 1].dts)) + [NewSample(x)], h + [x], None,
                    |h| - |samples|)
  {
    var a, h' := |h| - |samples|, h + [x];
    VisibleIsStable(h, x);
    var r := SetLastDuration(samples, Duration(x.dts, h[|h| - 1].dts)) + [NewSample(x)];
    forall k | 0 <= k < |r| ensures r[k] == NewSample(h'[a + k]).(duration := FDuration(h', a + k, None)) {
      if k < |samples| {
        assert samples[k] == NewSample(h[a + k]).(duration := FDuration(h, a + k, end));
        EarlierDuration(h, x, a + k, end);
      }
    }
  }

  lemma {:induction false} SliceBecomesVisible(samples: seq<Sample>, h: seq<Item>, end: Option<int>, x: Item)
    requires |samples| <= |h| && IsSlice(samples, h, end, |h| - |samples|) && FirstVisible(h) == |h| && x.dts >= 0
    ensures IsSlice(samples + [NewSample(x)], h + [x], None, |h| - |samples|)
  {
    var a, h' := |h| - |samples|, h + [x];
    VisibleIsStable(h, x);
    var r := samples + [NewSample(x)];
    forall k | 0 <= k < |r| ensures r[k] == NewSample(h'[a + k]).(duration := FDuration(h', a + k, None)) {
      if k < |samples| {
        assert samples[k] == NewSample(h[a + k]).(duration := FDuration(h, a + k, end));
      }
    }
  }

  lemma {:induction false} FWriteFirstVisible(t: FTrack, chunks: seq<Chunk>, h: seq<Item>, end: Option<int>, x: Item)
    requires FirstVisible(h) == |h| && HiddenIsRight(t, chunks, h, end) && t.Valid() && x.dts >= 0
    ensures FTrackIsConsistent(t.Write(x), chunks, h + [x], None)
  {
    VisibleIsStable(h, x);
    var kept := if x.nonSync then t.samples else [];
    assert IsSlice(kept, h, end, |h| - |kept|);
    SliceBecomesVisible(kept, h, end, x);
    FirstIsConsistent(t.Write(x), h + [x]);
  }

  lemma {:induction false} FirstIsConsistent(t: FTrack, h: seq<Item>)
    requires 0 < |t.samples| <= |h| && FirstVisible(h) == |h| - 1 && t.firstDTS == t.lastDTS == h[|h| - 1].dts
    requires |h| - |t.samples| == GopStart(h) && IsSlice(t.samples, h, None, GopStart(h))
    ensures FTrackIsConsistent(t, [], h, None)
  {
  }

  lemma {:induction false} TailGrows(t: FTrack, h: seq<Item>, end: Option<int>, x: Item)
    requires FirstVisible(h) < |h| && TailIsRight(t, h, end) && t.Valid() && StaysVisible(h) && x.dts >= 0
    requires t.lastDTS - t.firstDTS < t.timeScale
    ensures FirstVisible(h + [x]) < |h| && TailIsRight(t.Write(x), h + [x], None)
    ensures |t.Write(x).samples| == |t.samples| + 1 && t.Write(x).timeScale == t.timeScale
  {
    VisibleIsStable(h, x);
    assert t.firstDTS >= 0;
    var samples := SetLastDuration(t.samples, Duration(x.dts, h[|h| - 1].dts)) + [NewSample(x)];
    assert t.Write(x) == FTrack(t.timeScale, t.firstDTS, x.dts, samples);
    SliceGrows(t.samples, h, end, x);
    assert (h + [x])[|h| - 1] == h[|h| - 1];
  }

  lemma {:induction false} FWriteNextVisible(t: FTrack, chunks: seq<Chunk>, h: seq<Item>, end: Option<int>, x: Item)
    requires FirstVisible(h) < |h| && ShownIsConsistent(t, chunks, h, end) && t.Valid() && StaysVisible(h) && x.dts >= 0
    requires t.lastDTS - t.firstDTS < t.timeScale
    ensures FirstVisible(h + [x]) < |h| && ShownIsConsistent(t.Write(x), chunks, h + [x], None)
  {
    TailGrows(t, h, end, x);
    ChunksAreStable(chunks, h, end, GopStart(h), |h| - |t.samples|, t.timeScale, x);
    VisibleIsStable(h, x);
  }

  /** A track takes a sample that is not before time zero. */
  lemma {:induction false} FWriteVisible(t: FTrack, chunks: seq<Chunk>, h: seq<Item>, end: Option<int>, x: Item)
    requires FTrackIsRight(t, chunks, h, end) && t.Valid() && StaysVisible(h) && x.dts >= 0
    ensures FTrackIsConsistent(t.Write(x), chunks, h + [x], None)
  {
    if FirstVisible(h) == |h| {
      FWriteFirstVisible(t, chunks, h, end, x);
    } else {
      FirstVisibleTime(t, chunks, h, end);
      FWriteNextVisible(t, chunks, h, end, x);
    }
  }

  /** A track takes a sample that is before time zero. */
  lemma {:induction false} FWriteInvisible(t: FTrack, chunks: seq<Chunk>, h: seq<Item>, end: Option<int>, x: Item)
    requires FTrackIsRight(t, chunks, h, end) && t.Valid() && StaysVisible(h + [x]) && x.dts < 0
    ensures FTrackIsRight(t.Write(x), chunks, h + [x], None)
  {
    VisibleIsStable(h, x);
    StaysVisiblePrefix(h, x);
  }

  lemma {:induction false} SliceGetsEnd(samples: seq<Sample>, h: seq<Item>, end: Option<int>, dts: int)
    requires samples != [] && |samples| <= |h| && IsSlice(samples, h, end, |h| - |samples|)
    ensures FirstVisible(h) < |h| ==>
              IsSlice(SetLastDuration(samples, Duration(dts, h[|h| - 1].dts)), h, Some(dts), |h| - |samples|)
  {
    if FirstVisible(h) < |h| {
      var a := |h| - |samples|;
      var r := SetLastDuration(samples, Duration(dts, h[|h| - 1].dts));
      forall k | 0 <= k < |r| ensures r[k] == NewSample(h[a + k]).(duration := FDuration(h, a + k, Some(dts))) {
        assert samples[k] == NewSample(h[a + k]).(duration := FDuration(h, a + k, end));
      }
    }
  }

  lemma {:induction false} FWriteFinal(t: FTrack, chunks: seq<Chunk>, h: seq<Item>, end: Option<int>, dts: int)
    requires FTrackIsRight(t, chunks, h, end) && t.Valid() && StaysVisible(h)
    ensures FTrackIsRight(t.WriteFinalDTS(dts), chunks, h, Some(dts))
  {
    FirstVisibleTime(t, chunks, h, end);
    if FirstVisible(h) < |h| {
      FWriteFinalShown(t, chunks, h, end, dts);
    }
  }

  lemma {:induction false} FWriteFinalShown(t: FTrack, chunks: seq<Chunk>, h: seq<Item>, end: Option<int>, dts: int)
    requires FirstVisible(h) < |h| && ShownIsConsistent(t, chunks, h, end) && t.firstDTS >= 0
    ensures ShownIsConsistent(t.WriteFinalDTS(dts), chunks, h, Some(dts))
  {
    SliceGetsEnd(t.samples, h, end, dts);
    ChunksIgnoreEnd(chunks, h, end, Some(dts), GopStart(h), |h| - |t.samples|, t.timeScale);
  }

  function ChunkOf(t: FTrack, final: bool): seq<Chunk> {
    if t.HasChunk(final) then [t.TakeChunk(final)] else []
  }

  lemma {:induction false} ChunksSnoc(
    chunks: seq<Chunk>, c: Chunk, h: seq<Item>, end: Option<int>, a: nat, m: nat, b: nat, timeScale: nat)
    requires ChunksAreRight(chunks, h, end, a, m, timeScale) && ChunkIsRight(c, h, end, m, b, timeScale) && a <= m
    ensures ChunksAreRight(chunks + [c], h, end, a, b, timeScale)
  {
    assert (chunks + [c])[..|chunks|] == chunks;
  }

  lemma {:induction false} ChunksGrow(
    chunks: seq<Chunk>, h: seq<Item>, end: Option<int>, a: nat, b: nat, timeScale: nat)
    requires ChunksAreRight(chunks, h, end, a, b, timeScale)
    ensures a <= b
  {
  }

  /** Flushing moves all samples but the last one into a chunk. */
  lemma {:induction false} FFlush(t: FTrack, chunks: seq<Chunk>, h: seq<Item>, end: Option<int>)
    requires FTrackIsConsistent(t, chunks, h, end) && StaysVisible(h) && t.timeScale > 0
    requires t.firstDTS >= 0 && !t.HasChunk(false) ==> t.lastDTS - t.firstDTS < t.timeScale
    ensures FTrackIsRight(t.Flushed(false), chunks + ChunkOf(t, false), h, end)
  {
    if t.HasChunk(false) {
      FirstVisibleTime(t, chunks, h, end);
      FFlushChunk(t, chunks, h, end);
    } else {
      assert chunks + ChunkOf(t, false) == chunks;
    }
  }

  lemma {:induction false} FFlushChunk(t: FTrack, chunks: seq<Chunk>, h: seq<Item>, end: Option<int>)
    requires FirstVisible(h) < |h| && ShownIsConsistent(t, chunks, h, end)
    requires StaysVisible(h) && t.timeScale > 0 && t.HasChunk(false)
    ensures FTrackIsRight(t.Flushed(false), chunks + [t.TakeChunk(false)], h, end)
  {
    NextChunk(t, h, end);
    AddChunk(t, chunks, h, end);
    LastIsSlice(t.samples, h, end);
    RestIsRight(t.Flushed(false), chunks + [t.TakeChunk(false)], h, end);
  }

  lemma {:induction false} AddChunk(t: FTrack, chunks: seq<Chunk>, h: seq<Item>, end: Option<int>)
    requires FirstVisible(h) < |h| && 0 < |t.samples| <= |h| && t.HasChunk(false)
    requires ChunksAreRight(chunks, h, end, GopStart(h), |h| - |t.samples|, t.timeScale)
    requires ChunkIsRight(t.TakeChunk(false), h, end, |h| - |t.samples|, |h| - 1, t.timeScale)
    ensures ChunksAreRight(chunks + [t.TakeChunk(false)], h, end, GopStart(h), |h| - 1, t.timeScale)
  {
    var c := |h| - |t.samples|;
    ChunksGrow(chunks, h, end, GopStart(h), c, t.timeScale);
    ChunksSnoc(chunks, t.TakeChunk(false), h, end, GopStart(h), c, |h| - 1, t.timeScale);
  }

  lemma {:induction false} LastIsSlice(samples: seq<Sample>, h: seq<Item>, end: Option<int>)
    requires samples != [] && |samples| <= |h| && IsSlice(samples, h, end, |h| - |samples|)
    ensures IsSlice(samples[|samples| - 1..], h, end, |h| - 1)
  {
    assert samples[|samples| - 1..] == [samples[|samples| - 1]];
  }

  lemma {:induction false} RestIsRight(t: FTrack, chunks: seq<Chunk>, h: seq<Item>, end: Option<int>)
    requires |t.samples| == 1 && FirstVisible(h) < |h| && t.firstDTS == t.lastDTS == h[|h| - 1].dts && t.timeScale > 0
    requires IsSlice(t.samples, h, end, |h| - 1)
    requires ChunksAreRight(chunks, h, end, GopStart(h), |h| - 1, t.timeScale)
    ensures FTrackIsRight(t, chunks, h, end)
  {
  }

  lemma {:induction false} NextChunk(t: FTrack, h: seq<Item>, end: Option<int>)
    requires FirstVisible(h) < |h| && TailIsRight(t, h, end) && StaysVisible(h) && t.HasChunk(false)
    ensures t.lastDTS == h[|h| - 1].dts
    ensures ChunkIsRight(t.TakeChunk(false), h, end, |h| - |t.samples|, |h| - 1, t.timeScale)
  {
  }

  /** Flushing at the end moves all samples of a track that has been visible. */
  lemma {:induction false} FFlushFinal(t: FTrack, chunks: seq<Chunk>, h: seq<Item>, end: Option<int>)
    requires FTrackIsRight(t, chunks, h, end) && StaysVisible(h)
    ensures if FirstVisible(h) == |h| then chunks + ChunkOf(t, true) == []
            else ChunksAreRight(chunks + ChunkOf(t, true), h, end, GopStart(h), |h|, t.timeScale)
  {
    FirstVisibleTime(t, chunks, h, end);
    if FirstVisible(h) < |h| {
      var c := |h| - |t.samples|;
      ChunksGrow(chunks, h, end, GopStart(h), c, t.timeScale);
      assert ChunkIsRight(t.TakeChunk(true), h, end, c, |h|, t.timeScale);
      ChunksSnoc(chunks, t.TakeChunk(true), h, end, GopStart(h), c, |h|, t.timeScale);
    }
  }

  // what the fragmented muxer holds of one track, whatever its times

  /** After the first visible sample there is a sync sample before the requested start. */
  predicate Drops(h: seq<Item>) {
    exists k :: FirstVisible(h) < k < |h| && !h[k].nonSync && h[k].dts < 0
  }

  lemma {:induction false} DropsSnoc(h: seq<Item>, x: Item)
    ensures Drops(h + [x]) <==> Drops(h) || (FirstVisible(h) < |h| && !x.nonSync && x.dts < 0)
  {
    VisibleIsStable(h, x);
    var h' := h + [x];
    if Drops(h) {
      var k :| FirstVisible(h) < k < |h| && !h[k].nonSync && h[k].dts < 0;
      assert h'[k] == h[k];
    }
    assert h'[|h|] == x;
  }

  function AllSamples(chunks: seq<Chunk>): seq<Sample> {
    if chunks == [] then [] else AllSamples(chunks[..|chunks| - 1]) + chunks[|chunks| - 1].samples
  }

  lemma {:induction false} AllSamplesSnoc(chunks: seq<Chunk>, c: Chunk)
    ensures AllSamples(chunks + [c]) == AllSamples(chunks) + c.samples
  {
    assert (chunks + [c])[..|chunks|] == chunks;
  }

  /** All samples from index a on, their durations left aside. */
  predicate AreFrom(samples: seq<Sample>, h: seq<Item>, a: nat) {
    && a + |samples| == |h|
    && forall k :: 0 <= k < |samples| ==> samples[k].(duration := 0) == NewSample(h[a + k])
  }

  /** Chunks and memory together hold all samples that are needed, unless some have been dropped. */
  predicate FHolds(t: FTrack, chunks: seq<Chunk>, h: seq<Item>) {
    && (t.firstDTS >= 0 <==> FirstVisible(h) < |h|)
    && (t.firstDTS >= 0 ==> t.samples != [] && t.lastDTS >= 0)
    && (FirstVisible(h) == |h| ==> chunks == [])
    && var all := AllSamples(chunks) + t.samples;
       if Drops(h) then |all| < |h| - GopStart(h) else AreFrom(all, h, GopStart(h))
  }

  lemma {:induction false} HeldGrows(
    chunks: seq<Chunk>, samples: seq<Sample>, kept: seq<Sample>, h: seq<Item>, x: Item, a: nat)
    requires AreFrom(AllSamples(chunks) + samples, h, a)
    requires |kept| == |samples|
    requires forall k :: 0 <= k < |samples| ==> kept[k].(duration := 0) == samples[k].(duration := 0)
    ensures AreFrom(AllSamples(chunks) + (kept + [NewSample(x)]), h + [x], a)
  {
    var was, all := AllSamples(chunks) + samples, AllSamples(chunks) + (kept + [NewSample(x)]);
    forall k | 0 <= k < |all| ensures all[k].(duration := 0) == NewSample((h + [x])[a + k]) {
      if k < |was| {
        assert was[k].(duration := 0) == NewSample(h[a + k]);
      }
    }
  }

  /** A track takes its first visible sample, or one before that. */
  lemma {:induction false} FWriteHidden(t: FTrack, chunks: seq<Chunk>, h: seq<Item>, x: Item)
    requires t.Valid() && FHolds(t, chunks, h) && FirstVisible(h) == |h|
    ensures FHolds(t.Write(x), chunks, h + [x])
  {
    VisibleIsStable(h, x);
    DropsSnoc(h, x);
    var kept := if x.nonSync then t.samples else [];
    assert t.Write(x).samples == kept + [NewSample(x)];
    if x.nonSync {
      HeldGrows(chunks, t.samples, t.samples, h, x, GopStart(h));
    } else {
      assert AllSamples(chunks) + (kept + [NewSample(x)]) == [NewSample(x)];
    }
  }

  lemma {:induction false} FWriteAppends(t: FTrack, chunks: seq<Chunk>, h: seq<Item>, x: Item)
    requires t.Valid() && FHolds(t, chunks, h) && FirstVisible(h) < |h| && (x.dts >= 0 || x.nonSync)
    ensures FHolds(t.Write(x), chunks, h + [x])
  {
    VisibleIsStable(h, x);
    DropsSnoc(h, x);
    var kept := if x.dts >= 0 then SetLastDuration(t.samples, Duration(x.dts, t.lastDTS)) else t.samples;
    assert t.Write(x).samples == kept + [NewSample(x)];
    if !Drops(h) {
      HeldGrows(chunks, t.samples, kept, h, x, GopStart(h));
    }
  }

  lemma {:induction false} FWriteDrops(t: FTrack, chunks: seq<Chunk>, h: seq<Item>, x: Item)
    requires t.Valid() && FHolds(t, chunks, h) && FirstVisible(h) < |h| && x.dts < 0 && !x.nonSync
    ensures FHolds(t.Write(x), chunks, h + [x])
  {
    VisibleIsStable(h, x);
    DropsSnoc(h, x);
    assert t.Write(x).samples == [] + [NewSample(x)];
  }

  /** Whatever the times of a track, its samples are kept until a sync sample from before the requested start
      follows a visible one. */
  lemma {:induction false} FWriteHolds(t: FTrack, chunks: seq<Chunk>, h: seq<Item>, x: Item)
    requires t.Valid() && FHolds(t, chunks, h)
    ensures FHolds(t.Write(x), chunks, h + [x])
  {
    if FirstVisible(h) == |h| {
      FWriteHidden(t, chunks, h, x);
    } else if x.dts >= 0 || x.nonSync {
      FWriteAppends(t, chunks, h, x);
    } else {
      FWriteDrops(t, chunks, h, x);
    }
  }

  lemma {:induction false} FWriteFinalHolds(t: FTrack, chunks: seq<Chunk>, h: seq<Item>, dts: int)
    requires t.Valid() && FHolds(t, chunks, h)
    ensures FHolds(t.WriteFinalDTS(dts), chunks, h)
  {
    if t.samples != [] && t.firstDTS >= 0 && !Drops(h) {
      var was, all := AllSamples(chunks) + t.samples, AllSamples(chunks) + t.WriteFinalDTS(dts).samples;
      forall k | 0 <= k < |all| ensures all[k].(duration := 0) == NewSample(h[GopStart(h) + k]) {
        assert was[k].(duration := 0) == NewSample(h[GopStart(h) + k]);
      }
    }
  }

  lemma {:induction false} FFlushHolds(t: FTrack, chunks: seq<Chunk>, h: seq<Item>)
    requires t.Valid() && FHolds(t, chunks, h)
    ensures FHolds(t.Flushed(false), chunks + ChunkOf(t, false), h)
  {
    if t.HasChunk(false) {
      var n, c := |t.samples| - 1, t.TakeChunk(false);
      AllSamplesSnoc(chunks, c);
      assert AllSamples(chunks) + t.samples == AllSamples(chunks + [c]) + t.samples[n..];
    } else {
      assert chunks + ChunkOf(t, false) == chunks;
    }
  }

  /** At the end all samples that are held are in chunks, if the track has been visible. */
  lemma {:induction false} FinalHolds(t: FTrack, chunks: seq<Chunk>, h: seq<Item>)
    requires FHolds(t, chunks, h)
    ensures var all := AllSamples(chunks + ChunkOf(t, true));
            if FirstVisible(h) == |h| then chunks + ChunkOf(t, true) == []
            else if Drops(h) then |all| < |h| - GopStart(h)
            else AreFrom(all, h, GopStart(h))
  {
    if FirstVisible(h) < |h| {
      AllSamplesSnoc(chunks, t.TakeChunk(true));
    }
  }
}
