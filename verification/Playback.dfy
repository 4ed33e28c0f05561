/** Playing recorded segments: which ones are played, and what a muxer is told about their samples. */
module Playback {
  import opened Options
  import opened Rounding
  import MM = MuxerModel

  datatype InitTrack = InitTrack(id: int, timeScale: nat, codec: nat)

  /** Written by the recorder into the header of each segment; old recordings do not have it. */
  datatype Mtxi = Mtxi(streamID: seq<Byte>, segmentNumber: nat, dts: int)

  datatype Init = Init(tracks: seq<InitTrack>, mtxi: Option<Mtxi>)

  datatype Entry = Entry(payload: seq<Byte>, duration: nat, ptsOffset: int, nonSync: bool)

  /** The samples of one track in one part. */
  datatype Run = Run(trackID: int, baseTime: int, entries: seq<Entry>)

  datatype SegmentFile = SegmentFile(init: Init, start: int, parts: seq<seq<Run>>)

  const CONCATENATION_TOLERANCE: int := SECOND

  /** The sources' clocks run; reading a segment with a stopped one is not possible. */
  predicate ValidTracks(tracks: seq<InitTrack>) {
    forall i :: 0 <= i < |tracks| ==> tracks[i].timeScale > 0
  }

  predicate AreConsecutive(a: Init, b: Init) {
    match (a.mtxi, b.mtxi)
    case (None, None) => a.tracks == b.tracks
    case (Some(x), Some(y)) => x.streamID == y.streamID && x.segmentNumber + 1 == y.segmentNumber
    case _ => false
  }

  predicate CanBeConcatenated(prev: Init, prevEnd: int, cur: Init, curStart: int) {
    && AreConsecutive(prev, cur)
    && curStart >= prevEnd - CONCATENATION_TOLERANCE
    && curStart <= prevEnd + CONCATENATION_TOLERANCE
  }

  /** The index of the first track with an ID. */
  function FindTrack(tracks: seq<InitTrack>, id: int): (r: Option<nat>)
    ensures r.Some? ==> r.value < |tracks| && tracks[r.value].id == id && forall i :: 0 <= i < r.value ==>
            tracks[i].id != id
    ensures r.None? ==> forall i :: 0 <= i < |tracks| ==> tracks[i].id != id
  {
    FindTrackFrom(tracks, id, 0)
  }

  function FindTrackFrom(tracks: seq<InitTrack>, id: int, n: nat): (r: Option<nat>)
    requires n <= |tracks| && forall i :: 0 <= i < n ==> tracks[i].id != id
    ensures r.Some? ==> r.value < |tracks| && tracks[r.value].id == id && forall i :: 0 <= i < r.value ==>
            tracks[i].id != id
    ensures r.None? ==> forall i :: 0 <= i < |tracks| ==> tracks[i].id != id
    decreases |tracks| - n
  {
    if n == |tracks| then None
    else if tracks[n].id == id then Some(n)
    else FindTrackFrom(tracks, id, n + 1)
  }

  // one run

  function SumDurations(entries: seq<Entry>, k: nat): nat
    requires k <= |entries|
  {
    if k == 0 then 0 else SumDurations(entries, k - 1) + entries[k - 1].duration
  }

  /** The playback DTS of the k-th sample, or the end of the run. */
  function PlayDTS(run: Run, start: int, k: nat): int
    requires k <= |run.entries|
  {
    run.baseTime + start + SumDurations(run.entries, k)
  }

  /** How many samples are played: those before the limit. */
  function PlayedFrom(run: Run, start: int, limit: int, k: nat): (n: nat)
    requires k <= |run.entries|
    ensures k <= n <= |run.entries|
    ensures forall j :: k <= j < n ==> PlayDTS(run, start, j) < limit
    ensures n < |run.entries| ==> PlayDTS(run, start, n) >= limit
    decreases |run.entries| - k
  {
    if k < |run.entries| && PlayDTS(run, start, k) < limit then PlayedFrom(run, start, limit, k + 1) else k
  }

  function ItemAt(run: Run, start: int, k: nat): MM.Item
    requires k < |run.entries|
  {
    var e := run.entries[k];
    MM.Item(PlayDTS(run, start, k), e.ptsOffset, e.nonSync, e.payload)
  }

  /** What a muxer is told about the first n samples of a run. */
  function Writes(run: Run, start: int, n: nat): (r: seq<MM.Call>)
    requires n <= |run.entries|
    ensures |r| == n && forall k :: 0 <= k < n ==> r[k] == MM.WriteSample(ItemAt(run, start, k))
  {
    if n == 0 then [] else Writes(run, start, n - 1) + [MM.WriteSample(ItemAt(run, start, n - 1))]
  }

  /** `stop` says that a sample was not played because it is beyond the requested duration. */
  datatype Muxed = Muxed(calls: seq<MM.Call>, elapsed: int, stop: bool)

  function Longer(a: int, b: int): int {
    if b > a then b else a
  }

  function MuxRun(m: Muxed, run: Run, tracks: seq<InitTrack>, startDTS: int, duration: int): Option<Muxed>
    requires ValidTracks(tracks)
  {
    var found := FindTrack(tracks, run.trackID);
    if found.None? then None
    else
      var timeScale := tracks[found.value].timeScale;
      var start := DurationGoToMp4(startDTS, timeScale);
      var n := PlayedFrom(run, start, DurationGoToMp4(duration, timeScale), 0);
      var end := PlayDTS(run, start, n);
      Some(Muxed(
             m.calls + [MM.SetTrack(found.value)] + Writes(run, start, n) + [MM.WriteFinalDTS(end)],
             Longer(m.elapsed, TimestampToDuration(end - start, timeScale)),
             m.stop || n < |run.entries|))
  }

  /** All runs of one part. */
  function MuxPart(m: Muxed, runs: seq<Run>, tracks: seq<InitTrack>, startDTS: int, duration: int): Option<Muxed>
    requires ValidTracks(tracks)
  {
    if runs == [] then Some(m)
    else
      var r := MuxPart(m, runs[..|runs| - 1], tracks, startDTS, duration);
      if r.None? then None else MuxRun(r.value, runs[|runs| - 1], tracks, startDTS, duration)
  }

  /** All parts, until one has samples beyond the requested duration. */
  function MuxParts(m: Muxed, parts: seq<seq<Run>>, tracks: seq<InitTrack>, startDTS: int, duration: int): Option<Muxed>
    requires ValidTracks(tracks)
  {
    if parts == [] then Some(m)
    else
      var r := MuxParts(m, parts[..|parts| - 1], tracks, startDTS, duration);
      if r.None? || r.value.stop then r else MuxPart(r.value, parts[|parts| - 1], tracks, startDTS, duration)
  }

  /** The muxer is driven sample by sample. */
  method DriveRun(m: Muxed, run: Run, tracks: seq<InitTrack>, startDTS: int, duration: int) returns (r: Option<Muxed>)
    requires ValidTracks(tracks)
    ensures r == MuxRun(m, run, tracks, startDTS, duration)
  {
    var found := FindTrack(tracks, run.trackID);
    if found.None? {
      return None;
    }
    var timeScale := tracks[found.value].timeScale;
    var start, limit := DurationGoToMp4(startDTS, timeScale), DurationGoToMp4(duration, timeScale);
    var calls := m.calls + [MM.SetTrack(found.value)];
    var dts, stop, n := run.baseTime + start, m.stop, 0;
    while n < |run.entries| && dts < limit
      invariant n <= |run.entries| && dts == PlayDTS(run, start, n)
      invariant calls == m.calls + [MM.SetTrack(found.value)] + Writes(run, start, n)
      invariant PlayedFrom(run, start, limit, 0) == PlayedFrom(run, start, limit, n)
    {
      var e := run.entries[n];
      calls := calls + [MM.WriteSample(MM.Item(dts, e.ptsOffset, e.nonSync, e.payload))];
      dts := dts + e.duration;
      n := n + 1;
    }
    stop := stop || n < |run.entries|;
    calls := calls + [MM.WriteFinalDTS(dts)];
    var elapsed := TimestampToDuration(dts - start, timeScale);
    return Some(Muxed(calls, if elapsed > m.elapsed then elapsed else m.elapsed, stop));
  }

  method DriveParts(calls: seq<MM.Call>, parts: seq<seq<Run>>, tracks: seq<InitTrack>, startDTS: int, duration: int)
    returns (r: Option<Muxed>)
    requires ValidTracks(tracks)
    ensures r == MuxParts(Muxed(calls, 0, false), parts, tracks, startDTS, duration)
  {
    var m := Muxed(calls, 0, false);
    var n := 0;
    while n < |parts|
      invariant n <= |parts|
      invariant MuxParts(Muxed(calls, 0, false), parts[..n], tracks, startDTS, duration) == Some(m) && !m.stop
    {
      var k := 0;
      ghost var before := m;
      while k < |parts[n]|
        invariant k <= |parts[n]| && MuxPart(before, parts[n][..k], tracks, startDTS, duration) == Some(m)
      {
        var t := DriveRun(m, parts[n][k], tracks, startDTS, duration);
        assert parts[n][..k + 1][..k] == parts[n][..k];
        if t.None? {
          FailureLasts(Muxed(calls, 0, false), parts, n, k + 1, tracks, startDTS, duration);
          return None;
        }
        m := t.value;
        k := k + 1;
      }
      assert parts[n][..k] == parts[n];
      assert parts[..n + 1][..n] == parts[..n];
      n := n + 1;
      if m.stop {
        StopLasts(Muxed(calls, 0, false), parts, n, tracks, startDTS, duration);
        return Some(m);
      }
    }
    assert parts[..n] == parts;
    return Some(m);
  }

  lemma {:induction false} RunsFail(
    m: Muxed, runs: seq<Run>, k: nat, tracks: seq<InitTrack>, startDTS: int, duration: int)
    requires ValidTracks(tracks) && k <= |runs| && MuxPart(m, runs[..k], tracks, startDTS, duration).None?
    ensures MuxPart(m, runs, tracks, startDTS, duration).None?
    decreases |runs|
  {
    if k == |runs| {
      assert runs[..k] == runs;
    } else {
      assert runs[..|runs| - 1][..k] == runs[..k];
      RunsFail(m, runs[..|runs| - 1], k, tracks, startDTS, duration);
    }
  }

  /** An unknown track is an error. */
  lemma {:induction false} FailureLasts(
    m: Muxed, parts: seq<seq<Run>>, n: nat, k: nat, tracks: seq<InitTrack>, startDTS: int, duration: int)
    requires ValidTracks(tracks) && n < |parts| && k <= |parts[n]|
    requires var r := MuxParts(m, parts[..n], tracks, startDTS, duration);
             r.Some? && !r.value.stop && MuxPart(r.value, parts[n][..k], tracks, startDTS, duration).None?
    ensures MuxParts(m, parts, tracks, startDTS, duration).None?
    decreases |parts|
  {
    if n == |parts| - 1 {
      RunsFail(MuxParts(m, parts[..n], tracks, startDTS, duration).value, parts[n], k, tracks, startDTS, duration);
    } else {
      assert parts[..|parts| - 1][..n] == parts[..n];
      FailureLasts(m, parts[..|parts| - 1], n, k, tracks, startDTS, duration);
    }
  }

  lemma {:induction false} StopLasts(
    m: Muxed, parts: seq<seq<Run>>, n: nat, tracks: seq<InitTrack>, startDTS: int, duration: int)
    requires ValidTracks(tracks) && n <= |parts|
    requires var r := MuxParts(m, parts[..n], tracks, startDTS, duration);
             r.Some? && r.value.stop
    ensures MuxParts(m, parts, tracks, startDTS, duration) == MuxParts(m, parts[..n], tracks, startDTS, duration)
    decreases |parts|
  {
    if n == |parts| {
      assert parts[..n] == parts;
    } else {
      assert parts[..|parts| - 1][..n] == parts[..n];
      StopLasts(m, parts[..|parts| - 1], n, tracks, startDTS, duration);
    }
  }

  // several segments

  /** What has been done after some segments: how many were played and when the last of them ended. */
  datatype Seeked = Seeked(calls: seq<MM.Call>, end: int, played: nat)

  /** Where a segment starts on the playback time line: exactly, or according to the wall clock. */
  function Offset(segments: seq<SegmentFile>, k: nat, start: int): int
    requires k < |segments| && (segments[0].init.mtxi.Some? ==> segments[k].init.mtxi.Some?)
  {
    var first := segments[0];
    if first.init.mtxi.Some? then segments[k].init.mtxi.value.dts - first.init.mtxi.value.dts + (first.start - start)
    else segments[k].start - start
  }

  /** The first n segments are tried in order, until one does not continue the previous one. */
  function SeekTo(segments: seq<SegmentFile>, n: nat, start: int, duration: int): (r: Option<Seeked>)
    requires 0 < n <= |segments| && ValidTracks(segments[0].init.tracks)
    ensures r.Some? ==> 0 < r.value.played <= n
    ensures r.Some? ==> forall k :: 0 <= k < r.value.played ==>
            segments[k].init.mtxi.Some? == segments[0].init.mtxi.Some?
  {
    var tracks := segments[0].init.tracks;
    if n == 1 then
      var m := MuxParts(Muxed([], 0, false), segments[0].parts, tracks, segments[0].start - start, duration);
      if m.None? then None else Some(Seeked(m.value.calls, segments[0].start + m.value.elapsed, 1))
    else
      var r := SeekTo(segments, n - 1, start, duration);
      if r.None? || r.value.played < n - 1 then r
      else
        var segment := segments[n - 1];
        if !CanBeConcatenated(segments[n - 2].init, r.value.end, segment.init, segment.start) then r
        else
          var m := MuxParts(Muxed(r.value.calls, 0, false), segment.parts, tracks, Offset(segments, n - 1, start),
                            duration);
          if m.None? then None else Some(Seeked(m.value.calls, segment.start + m.value.elapsed, n))
  }

  /** Opens one more segment: an error, an unchanged result because it does not continue the previous one,
      or its samples as well. */
  method PlayNext(
    segments: seq<SegmentFile>, n: nat, played: Seeked, start: int, duration: int) returns (r: Option<Seeked>)
    requires 0 < n < |segments| && ValidTracks(segments[0].init.tracks)
    requires SeekTo(segments, n, start, duration) == Some(played) && played.played == n
    ensures r == SeekTo(segments, n + 1, start, duration)
  {
    var first, segment := segments[0].init, segments[n];
    if !CanBeConcatenated(segments[n - 1].init, played.end, segment.init, segment.start) {
      return Some(played);
    }
    var dts := segment.start - start;
    if first.mtxi.Some? {
      dts := segment.init.mtxi.value.dts - first.mtxi.value.dts + (segments[0].start - start);
    }
    var m := DriveParts(played.calls, segment.parts, first.tracks, dts, duration);
    if m.None? {
      return None;
    }
    return Some(Seeked(m.value.calls, segment.start + m.value.elapsed, n + 1));
  }

  method SeekAndMux(segments: seq<SegmentFile>, start: int, duration: int) returns (r: Option<Seeked>)
    requires segments != [] && ValidTracks(segments[0].init.tracks)
    ensures r == SeekTo(segments, |segments|, start, duration)
  {
    var m := DriveParts([], segments[0].parts, segments[0].init.tracks, segments[0].start - start, duration);
    r := if m.None? then None else Some(Seeked(m.value.calls, segments[0].start + m.value.elapsed, 1));
    var n := 1;
    while n < |segments| && r.Some? && r.value.played == n
      invariant 0 < n <= |segments| && r == SeekTo(segments, n, start, duration)
    {
      r := PlayNext(segments, n, r.value, start, duration);
      n := n + 1;
    }
    if r.None? {
      SeekFailureLasts(segments, n, |segments|, start, duration);
    } else if r.value.played < n {
      SeekStopLasts(segments, n, |segments|, start, duration);
    }
  }

  lemma {:induction false} SeekFailureLasts(segments: seq<SegmentFile>, n: nat, k: nat, start: int, duration: int)
    requires 0 < n <= k <= |segments| && ValidTracks(segments[0].init.tracks) &&
             SeekTo(segments, n, start, duration).None?
    ensures SeekTo(segments, k, start, duration).None?
    decreases k
  {
    if n < k {
      SeekFailureLasts(segments, n, k - 1, start, duration);
    }
  }

  lemma {:induction false} SeekStopLasts(segments: seq<SegmentFile>, n: nat, k: nat, start: int, duration: int)
    requires 0 < n <= k <= |segments| && ValidTracks(segments[0].init.tracks)
    requires var r := SeekTo(segments, n, start, duration);
             r.Some? && r.value.played < n
    ensures SeekTo(segments, k, start, duration) == SeekTo(segments, n, start, duration)
    decreases k
  {
    if n < k {
      SeekStopLasts(segments, n, k - 1, start, duration);
    }
  }

  /** What is played is one uninterrupted recording: consecutive numbers of one stream, and each segment
      is placed exactly as far from the first one as it was when it was recorded. */
  lemma {:induction false} PlayedSegmentsAreOneRecording(
    segments: seq<SegmentFile>, n: nat, start: int, duration: int, k: nat)
    requires 0 < n <= |segments| && ValidTracks(segments[0].init.tracks) && segments[0].init.mtxi.Some?
    requires SeekTo(segments, n, start, duration).Some? && k < SeekTo(segments, n, start, duration).value.played
    ensures segments[k].init.mtxi.Some?
    ensures var first, x := segments[0].init.mtxi.value, segments[k].init.mtxi.value;
            && x.streamID == first.streamID && x.segmentNumber == first.segmentNumber + k
            && Offset(segments, k, start) - Offset(segments, 0, start) == x.dts - first.dts
    decreases n
  {
    if n > 1 {
      var r := SeekTo(segments, n - 1, start, duration).value;
      if k < r.played {
        PlayedSegmentsAreOneRecording(segments, n - 1, start, duration, k);
      } else {
        PlayedSegmentsAreOneRecording(segments, n - 1, start, duration, n - 2);
      }
    }
  }

  /** A segment is left out only if it, or one before it, does not continue its predecessor. */
  lemma {:induction false} PlayingStopsAtAGap(segments: seq<SegmentFile>, n: nat, start: int, duration: int)
    requires 0 < n <= |segments| && ValidTracks(segments[0].init.tracks)
    requires SeekTo(segments, n, start, duration).Some? && SeekTo(segments, n, start, duration).value.played < n
    ensures var r := SeekTo(segments, n, start, duration).value;
            !CanBeConcatenated(segments[r.played - 1].init, r.end, segments[r.played].init, segments[r.played].start)
    decreases n
  {
    if SeekTo(segments, n - 1, start, duration).value.played < n - 1 {
      PlayingStopsAtAGap(segments, n - 1, start, duration);
    }
  }
}
