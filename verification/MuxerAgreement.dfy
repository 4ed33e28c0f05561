/** What the fragmented muxer holds and has written of every track, whatever the driver does. */
module MuxerAgreement {
  import opened Options
  import opened Rounding
  import opened MuxerModel
  import opened MuxerRuns

  // the fragmented muxer, all tracks

  /** The fragmented muxer stops at the first failure. */
  function FRun(timeScales: seq<nat>, calls: seq<Call>): (s: FState)
    requires ValidCalls(calls, |timeScales|)
    ensures s.Valid() && |s.tracks| == |timeScales| && (s.failed || s.current == Current(calls))
    ensures forall i :: 0 <= i < |timeScales| ==> s.tracks[i].timeScale == timeScales[i]
  {
    if calls == [] then FCreate(timeScales)
    else
      var s := FRun(timeScales, calls[..|calls| - 1]);
      if s.failed then s else s.Step(calls[|calls| - 1])
  }

  /** What the parts contain for one track. */
  function OfTrack(parts: seq<Part>, i: nat): seq<Chunk> {
    if parts == [] then []
    else
      var p := parts[|parts| - 1];
      OfTrack(parts[..|parts| - 1], i) + (if i in p.chunks then [p.chunks[i]] else [])
  }

  /** The samples of a track are held, and if it does not go back before the requested start, its times are
      right. */
  predicate TrackIsRight(s: FState, calls: seq<Call>, i: nat)
    requires i < |s.tracks|
  {
    var t, chunks, h := s.tracks[i], OfTrack(s.parts, i), History(calls, i);
    FHolds(t, chunks, h) && (StaysVisible(h) ==> FTrackIsRight(t, chunks, h, FinalDTS(calls, i)))
  }

  predicate TrackIsConsistent(s: FState, calls: seq<Call>, i: nat)
    requires i < |s.tracks|
  {
    var t, chunks, h := s.tracks[i], OfTrack(s.parts, i), History(calls, i);
    FHolds(t, chunks, h) && (StaysVisible(h) ==> FTrackIsConsistent(t, chunks, h, FinalDTS(calls, i)))
  }

  predicate TracksAreRight(s: FState, calls: seq<Call>) {
    forall i: nat :: i < |s.tracks| ==> TrackIsRight(s, calls, i)
  }

  /** The header is written with the first part, and parts are numbered from zero. */
  predicate PartsAreNumbered(s: FState) {
    && (s.initPending <==> s.parts == [])
    && s.nextSequenceNumber == |s.parts|
    && forall n :: 0 <= n < |s.parts| ==>
                     && s.parts[n].sequenceNumber == n && s.parts[n].chunks != map[]
                     && forall i :: i in s.parts[n].chunks ==> i < |s.tracks|
  }

  predicate RunIsRight(s: FState, calls: seq<Call>) {
    TracksAreRight(s, calls) && PartsAreNumbered(s) && !s.failed
  }

  /** What the driver does: it sets tracks before it writes samples, and their clocks run. */
  predicate Proper(timeScales: seq<nat>, calls: seq<Call>) {
    && ValidCalls(calls, |timeScales|)
    && forall i :: 0 <= i < |timeScales| ==> timeScales[i] > 0
  }

  lemma {:induction false} OfTrackSnoc(parts: seq<Part>, p: Part, i: nat)
    ensures OfTrack(parts + [p], i) == OfTrack(parts, i) + (if i in p.chunks then [p.chunks[i]] else [])
  {
    assert (parts + [p])[..|parts|] == parts;
  }

  /** A track becomes full only when it has a sample besides the new one. */
  lemma {:induction false} FullHasChunk(t: FTrack, x: Item)
    requires t.Valid() && t.timeScale > 0 && x.dts >= 0 && t.Write(x).IsFull()
    ensures t.Write(x).HasChunk(false)
  {
    SecondInTicks(t.timeScale);
  }

  lemma {:induction false} SecondInTicks(timeScale: nat)
    ensures DurationGoToMp4(SECOND, timeScale) == timeScale
  {
    assert Quo(SECOND, SECOND) == 1 && Rem(SECOND, SECOND) == 0;
  }

  predicate Runs(s: FState) {
    forall i :: 0 <= i < |s.tracks| ==> s.tracks[i].timeScale > 0
  }

  lemma {:induction false} FlushTrack(s: FState, calls: seq<Call>, i: nat)
    requires s.Valid() && i < |s.tracks| && s.Chunks(false) != map[] && Runs(s)
    requires TrackIsConsistent(s, calls, i) && (!s.tracks[i].HasChunk(false) ==> TrackIsRight(s, calls, i))
    ensures TrackIsRight(s.Flush(false), calls, i)
  {
    var p := Part(s.nextSequenceNumber, s.Chunks(false));
    OfTrackSnoc(s.parts, p, i);
    assert OfTrack(s.Flush(false).parts, i) == OfTrack(s.parts, i) + ChunkOf(s.tracks[i], false);
    FFlushHolds(s.tracks[i], OfTrack(s.parts, i), History(calls, i));
    if StaysVisible(History(calls, i)) {
      FFlush(s.tracks[i], OfTrack(s.parts, i), History(calls, i), FinalDTS(calls, i));
    }
  }

  /** Flushing keeps all tracks right and adds one part if any track has something to write. */
  lemma {:induction false} FlushIsRight(s: FState, calls: seq<Call>, i: nat)
    requires s.Valid() && PartsAreNumbered(s) && !s.failed && Runs(s)
    requires i < |s.tracks| && s.tracks[i].HasChunk(false) && TrackIsConsistent(s, calls, i)
    requires forall j: nat :: j < |s.tracks| && j != i ==> TrackIsRight(s, calls, j)
    ensures RunIsRight(s.Flush(false), calls)
  {
    assert i in s.Chunks(false);
    forall j: nat | j < |s.tracks| ensures TrackIsRight(s.Flush(false), calls, j) {
      assert j != i ==> TrackIsRight(s, calls, j);
      FlushTrack(s, calls, j);
    }
  }

  /** A call does not matter to the tracks that are not current. */
  lemma {:induction false} OtherTrack(s: FState, t: FState, before: seq<Call>, c: Call, j: nat)
    requires j < |s.tracks| && TrackIsRight(s, before, j) && (Current(before) != Some(j) || c.SetTrack?)
    requires j < |t.tracks| && t.tracks[j] == s.tracks[j] && t.parts == s.parts
    ensures TrackIsRight(t, before + [c], j)
  {
    HistorySnoc(before, c, j);
  }

  /** The current track takes a sample. */
  lemma {:induction false} OwnTrack(s: FState, before: seq<Call>, x: Item, i: nat)
    requires s.Valid() && i < |s.tracks| && TrackIsRight(s, before, i) && Current(before) == Some(i)
    ensures var u := s.(tracks := s.tracks[i := s.tracks[i].Write(x)]);
            TrackIsConsistent(u, before + [WriteSample(x)], i) &&
              (x.dts < 0 ==> TrackIsRight(u, before + [WriteSample(x)], i))
  {
    var h := History(before, i);
    HistorySnoc(before, WriteSample(x), i);
    FWriteHolds(s.tracks[i], OfTrack(s.parts, i), h, x);
    if StaysVisible(h + [x]) {
      StaysVisiblePrefix(h, x);
      if x.dts < 0 {
        FWriteInvisible(s.tracks[i], OfTrack(s.parts, i), h, FinalDTS(before, i), x);
      } else {
        FWriteVisible(s.tracks[i], OfTrack(s.parts, i), h, FinalDTS(before, i), x);
      }
    }
  }

  lemma {:induction false} WrittenTracks(s: FState, before: seq<Call>, x: Item, i: nat)
    requires s.Valid() && TracksAreRight(s, before) && i < |s.tracks| && Current(before) == Some(i)
    ensures var u := s.(tracks := s.tracks[i := s.tracks[i].Write(x)]);
            && TrackIsConsistent(u, before + [WriteSample(x)], i) &&
               (x.dts < 0 ==> TrackIsRight(u, before + [WriteSample(x)], i))
            && forall j: nat :: j < |u.tracks| && j != i ==> TrackIsRight(u, before + [WriteSample(x)], j)
  {
    var u := s.(tracks := s.tracks[i := s.tracks[i].Write(x)]);
    forall j: nat | j < |u.tracks| && j != i ensures TrackIsRight(u, before + [WriteSample(x)], j) {
      assert TrackIsRight(s, before, j);
      OtherTrack(s, u, before, WriteSample(x), j);
    }
    assert TrackIsRight(s, before, i);
    OwnTrack(s, before, x, i);
  }

  /** Unless a second has passed since the last chunk, there is nothing else to do. */
  lemma {:induction false} NotFullIsRight(s: FState, calls: seq<Call>, i: nat)
    requires i < |s.tracks| && TrackIsConsistent(s, calls, i) && !s.tracks[i].IsFull()
    ensures TrackIsRight(s, calls, i)
  {
    SecondInTicks(s.tracks[i].timeScale);
  }

  /** A sample is visible and a second has passed since the last chunk. */
  predicate MustFlush(s: FState, x: Item, i: nat)
    requires i < |s.tracks|
  {
    x.dts >= 0 && s.tracks[i].IsFull()
  }

  lemma {:induction false} QuietWriteIsRight(s: FState, calls: seq<Call>, x: Item, i: nat)
    requires i < |s.tracks| && PartsAreNumbered(s) && !s.failed && !MustFlush(s, x, i)
    requires TrackIsConsistent(s, calls, i) && (x.dts < 0 ==> TrackIsRight(s, calls, i))
    requires forall j: nat :: j < |s.tracks| && j != i ==> TrackIsRight(s, calls, j)
    ensures RunIsRight(s, calls)
  {
    if x.dts >= 0 {
      NotFullIsRight(s, calls, i);
    }
  }

  /** A track that becomes full is flushed, with all others. */
  lemma {:induction false} FullIsRight(s: FState, u: FState, calls: seq<Call>, x: Item, i: nat)
    requires s.Valid() && Runs(s) && i < |s.tracks| && x.dts >= 0 && s.tracks[i].Write(x).IsFull()
    requires u == s.(tracks := s.tracks[i := s.tracks[i].Write(x)]) && PartsAreNumbered(u) && !u.failed
    requires TrackIsConsistent(u, calls, i)
    requires forall j: nat :: j < |u.tracks| && j != i ==> TrackIsRight(u, calls, j)
    ensures RunIsRight(u.Flush(false), calls)
  {
    FullHasChunk(s.tracks[i], x);
    FlushIsRight(u, calls, i);
  }

  /** What a written sample leaves to do. */
  lemma {:induction false} WrittenIsRight(s: FState, u: FState, before: seq<Call>, x: Item, i: nat, t: FState)
    requires s.Valid() && RunIsRight(s, before) && Runs(s) && i < |s.tracks| && Current(before) == Some(i)
    requires u == s.(tracks := s.tracks[i := s.tracks[i].Write(x)])
    requires t == if MustFlush(u, x, i) then u.Flush(false) else u
    ensures RunIsRight(t, before + [WriteSample(x)])
  {
    WrittenTracks(s, before, x, i);
    if MustFlush(u, x, i) {
      FullIsRight(s, u, before + [WriteSample(x)], x, i);
    } else {
      QuietWriteIsRight(u, before + [WriteSample(x)], x, i);
    }
  }

  lemma {:induction false} WriteIsRight(s: FState, before: seq<Call>, x: Item)
    requires s.Valid() && RunIsRight(s, before)
    requires s.current.Some? && s.current == Current(before) && Runs(s)
    ensures RunIsRight(s.Step(WriteSample(x)), before + [WriteSample(x)])
  {
    var i := s.current.value;
    WrittenIsRight(s, s.(tracks := s.tracks[i := s.tracks[i].Write(x)]), before, x, i, s.Step(WriteSample(x)));
  }

  lemma {:induction false} FinalIsRight(s: FState, before: seq<Call>, dts: int, j: nat)
    requires s.Valid() && j < |s.tracks| && TrackIsRight(s, before, j)
    ensures var t, chunks, h := s.tracks[j].WriteFinalDTS(dts), OfTrack(s.parts, j), History(before, j);
            FHolds(t, chunks, h) && (StaysVisible(h) ==> FTrackIsRight(t, chunks, h, Some(dts)))
  {
    FWriteFinalHolds(s.tracks[j], OfTrack(s.parts, j), History(before, j), dts);
    if StaysVisible(History(before, j)) {
      FWriteFinal(s.tracks[j], OfTrack(s.parts, j), History(before, j), FinalDTS(before, j), dts);
    }
  }

  lemma {:induction false} StepIsRight(s: FState, before: seq<Call>, c: Call)
    requires s.Valid() && RunIsRight(s, before) && s.current == Current(before)
    requires if c.SetTrack? then c.track < |s.tracks| else s.current.Some?
    requires Runs(s)
    ensures RunIsRight(s.Step(c), before + [c])
  {
    if c.WriteSample? {
      WriteIsRight(s, before, c.item);
    } else {
      forall j: nat | j < |s.tracks| ensures TrackIsRight(s.Step(c), before + [c], j) {
        assert TrackIsRight(s, before, j);
        if c.WriteFinalDTS? && Current(before) == Some(j) {
          HistorySnoc(before, c, j);
          FinalIsRight(s, before, c.dts, j);
        } else {
          OtherTrack(s, s.Step(c), before, c, j);
        }
      }
    }
  }

  lemma {:induction false} ProperPrefix(timeScales: seq<nat>, before: seq<Call>, c: Call)
    requires Proper(timeScales, before + [c])
    ensures Proper(timeScales, before)
  {
    assert (before + [c])[..|before|] == before;
  }

  lemma {:induction false} NothingIsRight(timeScales: seq<nat>)
    ensures RunIsRight(FCreate(timeScales), [])
  {
    var s := FCreate(timeScales);
    forall i: nat | i < |s.tracks| ensures TrackIsRight(s, [], i) {
      assert OfTrack(s.parts, i) == [] && History([], i) == [];
    }
  }

  lemma {:induction false} FRunIsRight(timeScales: seq<nat>, calls: seq<Call>)
    requires Proper(timeScales, calls)
    ensures RunIsRight(FRun(timeScales, calls), calls)
    decreases |calls|
  {
    if calls == [] {
      NothingIsRight(timeScales);
    } else {
      var before, c := calls[..|calls| - 1], calls[|calls| - 1];
      assert calls == before + [c];
      ProperPrefix(timeScales, before, c);
      FRunIsRight(timeScales, before);
      StepIsRight(FRun(timeScales, before), before, c);
    }
  }

  /** Whether a second has passed on a track between the first visible sample that is in no part and a new one. */
  predicate SecondHasPassed(t: FTrack, x: Item) {
    x.dts >= 0 && t.firstDTS >= 0 && x.dts - t.firstDTS >= t.timeScale
  }

  lemma {:induction false} FlushAddsPart(s: FState, i: nat)
    requires s.Valid() && i < |s.tracks| && s.tracks[i].HasChunk(false)
    ensures |s.Flush(false).parts| == |s.parts| + 1
  {
    assert i in s.Chunks(false);
  }

  lemma {:induction false} WriteFlushesIff(s: FState, x: Item)
    requires s.Valid() && !s.failed && s.current.Some? && Runs(s)
    ensures |s.Step(WriteSample(x)).parts| ==
            |s.parts| + if SecondHasPassed(s.tracks[s.current.value], x) then 1 else 0
  {
    var i := s.current.value;
    var u := s.(tracks := s.tracks[i := s.tracks[i].Write(x)]);
    SecondInTicks(s.tracks[i].timeScale);
    if x.dts >= 0 && u.tracks[i].IsFull() {
      FullHasChunk(s.tracks[i], x);
      FlushAddsPart(u, i);
    }
  }

  /** After any calls, a sample makes the fragmented muxer write a part if and only if a second has passed on its track
      since the first visible sample that is in no part yet. */
  lemma {:induction false} PartIsWrittenIff(timeScales: seq<nat>, calls: seq<Call>, x: Item, i: nat)
    requires Proper(timeScales, calls + [WriteSample(x)]) && Proper(timeScales, calls) && Current(calls) == Some(i)
    requires i < |timeScales|
    ensures var s, t := FRun(timeScales, calls), FRun(timeScales, calls + [WriteSample(x)]);
            |t.parts| == |s.parts| + if SecondHasPassed(s.tracks[i], x) then 1 else 0
  {
    FRunIsRight(timeScales, calls);
    assert (calls + [WriteSample(x)])[..|calls|] == calls;
    WriteFlushesIff(FRun(timeScales, calls), x);
  }

  /** What is in memory begins with the first visible sample that is in no part yet. */
  predicate BeginsInMemory(t: FTrack, h: seq<Item>) {
    && FirstVisible(h) < |h| && 0 < |t.samples| <= |h|
    && t.firstDTS == h[Later(|h| - |t.samples|, FirstVisible(h))].dts
  }

  lemma {:induction false} MemoryBegins(t: FTrack, chunks: seq<Chunk>, h: seq<Item>, end: Option<int>)
    requires FTrackIsRight(t, chunks, h, end) && FirstVisible(h) < |h|
    ensures BeginsInMemory(t, h)
  {
  }

  lemma {:induction false} TrackBegins(s: FState, calls: seq<Call>, i: nat)
    requires i < |s.tracks| && RunIsRight(s, calls)
    requires StaysVisible(History(calls, i)) && FirstVisible(History(calls, i)) < |History(calls, i)|
    ensures BeginsInMemory(s.tracks[i], History(calls, i))
  {
    assert TrackIsRight(s, calls, i);
    MemoryBegins(s.tracks[i], OfTrack(s.parts, i), History(calls, i), FinalDTS(calls, i));
  }

  lemma {:induction false} FirstInMemory(timeScales: seq<nat>, calls: seq<Call>, i: nat)
    requires Proper(timeScales, calls) && i < |timeScales|
    requires StaysVisible(History(calls, i)) && FirstVisible(History(calls, i)) < |History(calls, i)|
    ensures BeginsInMemory(FRun(timeScales, calls).tracks[i], History(calls, i))
  {
    FRunIsRight(timeScales, calls);
    TrackBegins(FRun(timeScales, calls), calls, i);
  }
}
