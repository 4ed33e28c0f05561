/** Recording and then playing: how far the playback time of a sample can be from its recorded time. */
module RecordAndPlay {
  import opened Options
  import opened Rounding
  import RM = RecorderModel
  import RS = RecorderSafety
  import RR = RecorderRuns
  import RT = RecorderTiming
  import opened Playback

  // arithmetic

  /** d is t in nanoseconds and base is d on the time line of the segment, in ticks. */
  predicate IsBase(t: int, d: int, base: int, segmentStart: int, rate: int) {
    && (t >= 0 ==> 0 <= t * SECOND - rate * d < rate)
    && (t <= 0 ==> -rate < t * SECOND - rate * d <= 0)
    && 0 <= (d - segmentStart) * rate - SECOND * base < SECOND
  }

  lemma {:induction false} BaseIsBase(t: int, segmentStart: int, rate: nat)
    requires rate > 0 && TimestampToDuration(t, rate) >= segmentStart
    ensures IsBase(t, TimestampToDuration(t, rate), DurationGoToMp4(TimestampToDuration(t, rate) - segmentStart, rate),
                   segmentStart, rate)
  {
    var d := TimestampToDuration(t, rate);
    MultiplyAndDivideError(t, SECOND, rate);
    MultiplyAndDivideError(d - segmentStart, rate, SECOND);
  }

  /** The base time of a part, compared with the time stamp of its first sample on the time line of the
      recording, both in ticks multiplied by a billion. */
  lemma {:induction false} BaseTimeError(t: int, d: int, base: int, segmentStart: int, rate: int)
    requires 0 < rate <= SECOND && IsBase(t, d, base, segmentStart, rate)
    ensures t >= 0 ==> -SECOND - rate < SECOND * (base - t) + segmentStart * rate <= 0
    ensures t <= 0 ==> -SECOND < SECOND * (base - t) + segmentStart * rate < rate
  {
    assert (d - segmentStart) * rate == rate * d - segmentStart * rate;
  }

  /** Playback adds the offset of the segment, in ticks. */
  lemma {:induction false} OffsetError(x: int, rate: nat)
    requires rate > 0
    ensures -SECOND < SECOND * DurationGoToMp4(x, rate) - x * rate < SECOND
  {
    MultiplyAndDivideError(x, rate, SECOND);
  }

  /** A part's first sample is played less than three ticks before and less than two ticks after its recorded time,
      up to a constant that only depends on the first segment that is played and on the requested start. */
  lemma {:induction false} FirstSampleError(t: int, segmentStart: int, firstStart: int, startOffset: int, rate: nat)
    requires 0 < rate <= SECOND && TimestampToDuration(t, rate) >= segmentStart
    ensures var base := DurationGoToMp4(TimestampToDuration(t, rate) - segmentStart, rate);
            var start := DurationGoToMp4(segmentStart - firstStart + startOffset, rate);
            -3 * SECOND < SECOND * (base + start - t) - (startOffset - firstStart) * rate < 2 * SECOND
  {
    BaseIsBase(t, segmentStart, rate);
    BaseTimeError(t, TimestampToDuration(t, rate), DurationGoToMp4(TimestampToDuration(t, rate) - segmentStart, rate),
                  segmentStart, rate);
    OffsetError(segmentStart - firstStart + startOffset, rate);
    assert (segmentStart - firstStart + startOffset) * rate == segmentStart * rate + (startOffset - firstStart) * rate;
  }

  /** The base times of two parts of a segment are as far apart as their first samples, to within one tick.
      Negative times can add another tick, but only for clocks above half a gigahertz. */
  lemma {:induction false} BaseTimesApart(t: int, u: int, segmentStart: int, rate: nat)
    requires 0 < rate <= SECOND && TimestampToDuration(t, rate) >= segmentStart &&
             TimestampToDuration(u, rate) >= segmentStart
    ensures var b := DurationGoToMp4(TimestampToDuration(t, rate) - segmentStart, rate);
            var c := DurationGoToMp4(TimestampToDuration(u, rate) - segmentStart, rate);
            && -2 <= (c - b) - (u - t) <= 2
            && ((t >= 0 && u >= 0) || (t <= 0 && u <= 0) || 2 * rate <= SECOND ==> -1 <= (c - b) - (u - t) <= 1)
  {
    var d, e := TimestampToDuration(t, rate), TimestampToDuration(u, rate);
    BaseIsBase(t, segmentStart, rate);
    BaseIsBase(u, segmentStart, rate);
    BaseTimeError(t, d, DurationGoToMp4(d - segmentStart, rate), segmentStart, rate);
    BaseTimeError(u, e, DurationGoToMp4(e - segmentStart, rate), segmentStart, rate);
  }

  // recorded files

  function ToRun(pt: RM.PartTrack): (r: Run)
    ensures r.trackID == pt.id && r.baseTime == pt.baseTime && |r.entries| == |pt.samples|
  {
    Run(pt.id, pt.baseTime,
        seq(|pt.samples|, k requires 0 <= k < |pt.samples| =>
          Entry(pt.samples[k].payload, pt.samples[k].duration, pt.samples[k].ptsOffset, pt.samples[k].nonSync)))
  }

  function ToInit(tracks: seq<RM.Track>): seq<InitTrack>
    requires RM.ValidTracks(tracks)
  {
    seq(|tracks|, i requires 0 <= i < |tracks| =>
      InitTrack(tracks[i].id, tracks[i].timeScale, if tracks[i].video then 1 else 0))
  }

  /** The header that the recorder writes. */
  function Header(f: RM.File, tracks: seq<RM.Track>, streamID: seq<Byte>): Init
    requires RM.ValidTracks(tracks)
  {
    Init(ToInit(tracks), Some(Mtxi(streamID, f.number, f.startDTS)))
  }

  /** The files of a finished recording. */
  function Recorded(tracks: seq<RM.Track>, inputs: seq<RR.Input>, c: RM.Settings): seq<RM.File>
    requires RR.ValidInputs(tracks, inputs)
  {
    RM.Close(RR.Record(tracks, inputs, c)).files
  }

  lemma {:induction false} TracksStay(tracks: seq<RM.Track>, inputs: seq<RR.Input>, c: RM.Settings, i: nat)
    requires RR.ValidInputs(tracks, inputs) && i < |tracks|
    ensures RR.Record(tracks, inputs, c).tracks[i].id == tracks[i].id
    ensures RR.Record(tracks, inputs, c).tracks[i].timeScale == tracks[i].timeScale
    decreases |inputs|
  {
    if inputs != [] {
      TracksStay(tracks, inputs[..|inputs| - 1], c, i);
      var s, x := RR.Record(tracks, inputs[..|inputs| - 1], c), inputs[|inputs| - 1];
      if !s.failed {
        WriteKeepsTracks(s, x.track, x.sample, c, i);
      }
    }
  }

  lemma {:induction false} WriteKeepsTracks(s: RM.State, j: nat, sample: RM.Sample, c: RM.Settings, i: nat)
    requires RM.ValidTracks(s.tracks) && j < |s.tracks| && i < |s.tracks|
    ensures var t := RM.Write(s, j, sample, c);
            |t.tracks| == |s.tracks| && t.tracks[i].id == s.tracks[i].id &&
              t.tracks[i].timeScale == s.tracks[i].timeScale
  {
    var (u, known) := RM.Accept(s, j, sample);
    if known.Some? {
      RR.StoreLogs(u, j, known.value, c);
    }
  }

  lemma {:induction false} RecordedPart(tracks: seq<RM.Track>, inputs: seq<RR.Input>, c: RM.Settings, n: nat, m: nat)
    requires RR.ValidInputs(tracks, inputs)
    requires n < |Recorded(tracks, inputs, c)| && m < |Recorded(tracks, inputs, c)[n].parts|
    ensures var s, f := RR.Record(tracks, inputs, c), Recorded(tracks, inputs, c)[n];
            && f.number == n
            && RS.PartIsRight(s.log, s.tracks, n, f.startDTS, f.parts[m], c.maxPartSize)
  {
    RR.RecordingIsRight(tracks, inputs, c);
    var s := RR.Record(tracks, inputs, c);
    if n < |s.files| {
      assert RS.FileIsRight(s, n, c);
    } else {
      assert RM.CloseCurPart(s.segment.value).written == RS.AllParts(s.segment.value);
    }
  }

  /** What a part says about one track. */
  predicate IsRecordedTrack(pt: RM.PartTrack, track: RM.Track, segmentStart: int)
    requires track.timeScale > 0
  {
    && pt.samples != [] && RR.IsChain(pt.samples)
    && RM.Dts(track, pt.samples[0].dts) >= segmentStart
    && pt.baseTime == RM.BaseTime(track, RM.Dts(track, pt.samples[0].dts), segmentStart)
  }

  lemma {:induction false} RecordedTrack(
    tracks: seq<RM.Track>, inputs: seq<RR.Input>, c: RM.Settings, n: nat, m: nat, i: nat)
    requires RR.ValidInputs(tracks, inputs)
    requires n < |Recorded(tracks, inputs, c)| && m < |Recorded(tracks, inputs, c)[n].parts|
    requires i in Recorded(tracks, inputs, c)[n].parts[m].tracks
    ensures i < |tracks|
    ensures Recorded(tracks, inputs, c)[n].parts[m].tracks[i].id == tracks[i].id
    ensures IsRecordedTrack(Recorded(tracks, inputs, c)[n].parts[m].tracks[i], tracks[i],
                            Recorded(tracks, inputs, c)[n].startDTS)
  {
    RecordedStart(tracks, inputs, c, n, m, i);
    TracksStay(tracks, inputs, c, i);
    RecordedFileIsChained(tracks, inputs, c, n, i);
    OnePartIsChained(Recorded(tracks, inputs, c)[n].parts, m, i);
  }

  lemma {:induction false} RecordedStart(
    tracks: seq<RM.Track>, inputs: seq<RR.Input>, c: RM.Settings, n: nat, m: nat, i: nat)
    requires RR.ValidInputs(tracks, inputs)
    requires n < |Recorded(tracks, inputs, c)| && m < |Recorded(tracks, inputs, c)[n].parts|
    requires i in Recorded(tracks, inputs, c)[n].parts[m].tracks
    ensures i < |tracks|
    ensures var pt, track := Recorded(tracks, inputs, c)[n].parts[m].tracks[i], RR.Record(tracks, inputs, c).tracks[i];
            var segmentStart := Recorded(tracks, inputs, c)[n].startDTS;
            && pt.id == track.id && pt.samples != [] && RM.Dts(track, pt.samples[0].dts) >= segmentStart
            && pt.baseTime == RM.BaseTime(track, RM.Dts(track, pt.samples[0].dts), segmentStart)
  {
    RecordedPart(tracks, inputs, c, n, m);
    var s, f := RR.Record(tracks, inputs, c), Recorded(tracks, inputs, c)[n];
    assert RS.TrackIsRight(s.log, s.tracks[i], i, n, f.startDTS, f.parts[m]);
  }

  lemma {:induction false} OnePartIsChained(parts: seq<RM.Part>, m: nat, i: nat)
    requires m < |parts| && i in parts[m].tracks && RR.IsChain(RR.PartsSamples(parts, i))
    ensures RR.IsChain(parts[m].tracks[i].samples)
  {
    RT.PartsAreChained(parts, m, m + 1, i);
    assert parts[m..m + 1] == [parts[m]];
    RT.OnePart(parts[m], i);
  }

  lemma {:induction false} RecordedFileIsChained(
    tracks: seq<RM.Track>, inputs: seq<RR.Input>, c: RM.Settings, n: nat, i: nat)
    requires RR.ValidInputs(tracks, inputs) && n < |Recorded(tracks, inputs, c)| && i < |tracks|
    ensures RR.IsChain(RR.PartsSamples(Recorded(tracks, inputs, c)[n].parts, i))
  {
    RT.ClosedFilesAreChained(tracks, inputs, c, i);
  }

  /** The playback server recognizes the segments of a recording as consecutive. */
  lemma {:induction false} RecordedSegmentsAreConsecutive(
    tracks: seq<RM.Track>, inputs: seq<RR.Input>, c: RM.Settings, streamID: seq<Byte>, n: nat, m: nat)
    requires RR.ValidInputs(tracks, inputs) && n < |Recorded(tracks, inputs, c)| && m < |Recorded(tracks, inputs, c)|
    ensures Recorded(tracks, inputs, c)[n].parts != []
    ensures n + 1 == m <==>
            AreConsecutive(Header(Recorded(tracks, inputs, c)[n], tracks, streamID),
                           Header(Recorded(tracks, inputs, c)[m], tracks, streamID))
  {
    RecordedFile(tracks, inputs, c, n);
    RecordedFile(tracks, inputs, c, m);
    RecordedPart(tracks, inputs, c, n, 0);
    RecordedPart(tracks, inputs, c, m, 0);
  }

  lemma {:induction false} RecordedFile(tracks: seq<RM.Track>, inputs: seq<RR.Input>, c: RM.Settings, n: nat)
    requires RR.ValidInputs(tracks, inputs) && n < |Recorded(tracks, inputs, c)|
    ensures Recorded(tracks, inputs, c)[n].parts != []
  {
    RR.RecordingIsRight(tracks, inputs, c);
    var s := RR.Record(tracks, inputs, c);
    assert n < |s.files| ==> RS.FileIsRight(s, n, c);
  }

  lemma {:induction false} SameDurations(pt: RM.PartTrack, k: nat)
    requires k <= |pt.samples|
    ensures SumDurations(ToRun(pt).entries, k) == RT.SumDurations(pt.samples, k)
  {
    if k > 0 {
      SameDurations(pt, k - 1);
    }
  }

  /** A sample is played less than three ticks before and less than two ticks after its recorded time plus `shift`
      nanoseconds. */
  predicate IsClose(played: int, recorded: int, shift: int, rate: int) {
    -3 * SECOND < SECOND * (played - recorded) - shift * rate < 2 * SECOND
  }

  /** The sample times of a part, as played and as recorded. */
  lemma {:induction false} PartTimes(
    pt: RM.PartTrack, track: RM.Track, segmentStart: int, firstStart: int, startOffset: int, k: nat)
    requires 0 < track.timeScale <= SECOND && k < |pt.samples| && IsRecordedTrack(pt, track, segmentStart)
    ensures var start := DurationGoToMp4(segmentStart - firstStart + startOffset, track.timeScale);
            IsClose(PlayDTS(ToRun(pt), start, k), pt.samples[k].dts, startOffset - firstStart, track.timeScale)
            <==> RT.GapsFit(pt.samples, k)
  {
    FirstSampleError(pt.samples[0].dts, segmentStart, firstStart, startOffset, track.timeScale);
    RT.DurationsTelescope(pt.samples, k);
    SameDurations(pt, k);
  }

  /** Every sample of every recording is played less than three ticks before and less than two ticks after its
      recorded time plus a constant, which is the same for all samples, parts, segments and, in seconds, tracks,
      if and only if no gap before it in its part needs more than 32 bits. */
  lemma {:induction false} PlayedWhenRecorded(
    tracks: seq<RM.Track>, inputs: seq<RR.Input>, c: RM.Settings, streamID: seq<Byte>, first: nat, n: nat, m: nat,
    i: nat, k: nat,
    segments: seq<SegmentFile>, q: nat, start: int)
    requires RR.ValidInputs(tracks, inputs) && i < |tracks| && tracks[i].timeScale <= SECOND
    requires first < |Recorded(tracks, inputs, c)| && n < |Recorded(tracks, inputs, c)|
    requires m < |Recorded(tracks, inputs, c)[n].parts| && i in Recorded(tracks, inputs, c)[n].parts[m].tracks
    requires k < |Recorded(tracks, inputs, c)[n].parts[m].tracks[i].samples|
    requires q < |segments| && segments[q].init == Header(Recorded(tracks, inputs, c)[n], tracks, streamID)
    requires segments[0].init == Header(Recorded(tracks, inputs, c)[first], tracks, streamID)
    ensures var files, rate := Recorded(tracks, inputs, c), tracks[i].timeScale;
            var pt := files[n].parts[m].tracks[i];
            var shift := segments[0].start - start - files[first].startDTS;
            IsClose(PlayDTS(ToRun(pt), DurationGoToMp4(Offset(segments, q, start), rate), k), pt.samples[k].dts, shift,
                    rate)
            <==> RT.GapsFit(pt.samples, k)
  {
    RecordedTrack(tracks, inputs, c, n, m, i);
    var files := Recorded(tracks, inputs, c);
    PartTimes(files[n].parts[m].tracks[i], tracks[i], files[n].startDTS, files[first].startDTS,
              segments[0].start - start, k);
    assert Offset(segments, q, start) == files[n].startDTS - files[first].startDTS + (segments[0].start - start);
  }

  /** How far the base time of a part is from the one of an earlier part plus the durations in between. */
  function BaseTimeGap(parts: seq<RM.Part>, m: nat, l: nat, i: nat): int
    requires m <= l < |parts| && i in parts[m].tracks && i in parts[l].tracks
  {
    var h := RR.PartsSamples(parts[m..l], i);
    parts[l].tracks[i].baseTime - (parts[m].tracks[i].baseTime + RT.SumDurations(h, |h|))
  }

  /** All gaps from the first sample of one part to the first sample of another one fit into 32 bits. */
  predicate GapsFitBetween(parts: seq<RM.Part>, m: nat, l: nat, i: nat)
    requires m <= l < |parts| && i in parts[l].tracks && parts[l].tracks[i].samples != []
  {
    var h := RR.PartsSamples(parts[m..l], i) + [parts[l].tracks[i].samples[0]];
    RT.GapsFit(h, |h| - 1)
  }

  lemma {:induction false} GapOfChain(h: seq<RM.Sample>, x: RM.Sample, apart: int, k: int)
    requires h != [] && RR.IsChain(h + [x]) && 0 <= k <= 2 && -k <= apart - (x.dts - h[0].dts) <= k
    ensures RT.GapsFit(h + [x], |h|) <==> -k <= apart - RT.SumDurations(h, |h|) <= k
    ensures !RT.GapsFit(h + [x], |h|) ==> apart - RT.SumDurations(h, |h|) >= RM.UINT32 - k
  {
    RT.DurationsTelescope(h + [x], |h|);
    SumOfPrefix(h, x, |h|);
  }

  lemma {:induction false} SumOfPrefix(h: seq<RM.Sample>, x: RM.Sample, k: nat)
    requires k <= |h|
    ensures RT.SumDurations(h + [x], k) == RT.SumDurations(h, k)
  {
    if k > 0 {
      SumOfPrefix(h, x, k - 1);
    }
  }

  /** Clocks and times for which truncation loses at most one tick between two parts. */
  predicate LosesOneTick(t: int, u: int, rate: int) {
    (t >= 0 && u >= 0) || (t <= 0 && u <= 0) || 2 * rate <= SECOND
  }

  /** The parts of a file from one to another, between which a track lasts as the durations say. */
  lemma {:induction false} PartsApart(
    parts: seq<RM.Part>, track: RM.Track, segmentStart: int, m: nat, l: nat, i: nat, k: int)
    requires 0 < track.timeScale <= SECOND && m < l < |parts| && i in parts[m].tracks && i in parts[l].tracks
    requires IsRecordedTrack(parts[m].tracks[i], track, segmentStart) &&
             IsRecordedTrack(parts[l].tracks[i], track, segmentStart)
    requires RR.IsChain(RR.PartsSamples(parts, i))
    requires k == 2 ||
             (k == 1 &&
              LosesOneTick(parts[m].tracks[i].samples[0].dts, parts[l].tracks[i].samples[0].dts, track.timeScale))
    ensures GapsFitBetween(parts, m, l, i) <==> -k <= BaseTimeGap(parts, m, l, i) <= k
    ensures !GapsFitBetween(parts, m, l, i) ==> BaseTimeGap(parts, m, l, i) >= RM.UINT32 - k
  {
    var a, b := parts[m].tracks[i], parts[l].tracks[i];
    RT.PartsUpTo(parts, m, l, i);
    BaseTimesApart(a.samples[0].dts, b.samples[0].dts, segmentStart, track.timeScale);
    GapOfChain(RR.PartsSamples(parts[m..l], i), b.samples[0], b.baseTime - a.baseTime, k);
  }

  /** The base times of any two parts of a file that have a track differ by the sum of the durations in
      between, to within two ticks, or one for times of one sign or clocks up to half a gigahertz, if and
      only if the gaps in between fit into 32 bits; otherwise they are far off. */
  lemma {:induction false} PartsFollow(
    tracks: seq<RM.Track>, inputs: seq<RR.Input>, c: RM.Settings, n: nat, m: nat, l: nat, i: nat)
    requires RR.ValidInputs(tracks, inputs) && i < |tracks| && tracks[i].timeScale <= SECOND
    requires n < |Recorded(tracks, inputs, c)| && m < l < |Recorded(tracks, inputs, c)[n].parts|
    requires i in Recorded(tracks, inputs, c)[n].parts[m].tracks && i in Recorded(tracks, inputs, c)[n].parts[l].tracks
    ensures var parts := Recorded(tracks, inputs, c)[n].parts;
            var a, b := parts[m].tracks[i].samples, parts[l].tracks[i].samples;
            && a != [] && b != []
            && (GapsFitBetween(parts, m, l, i) <==> -2 <= BaseTimeGap(parts, m, l, i) <= 2)
            && (LosesOneTick(a[0].dts, b[0].dts, tracks[i].timeScale) ==>
                  (GapsFitBetween(parts, m, l, i) <==> -1 <= BaseTimeGap(parts, m, l, i) <= 1))
            && (!GapsFitBetween(parts, m, l, i) ==> BaseTimeGap(parts, m, l, i) >= RM.UINT32 - 2)
  {
    RecordedTrack(tracks, inputs, c, n, m, i);
    RecordedTrack(tracks, inputs, c, n, l, i);
    RecordedFileIsChained(tracks, inputs, c, n, i);
    var f := Recorded(tracks, inputs, c)[n];
    PartsApart(f.parts, tracks[i], f.startDTS, m, l, i, 2);
    if LosesOneTick(f.parts[m].tracks[i].samples[0].dts, f.parts[l].tracks[i].samples[0].dts, tracks[i].timeScale) {
      PartsApart(f.parts, tracks[i], f.startDTS, m, l, i, 1);
    }
  }
}
