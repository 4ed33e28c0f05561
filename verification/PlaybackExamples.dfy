/** A recording of which a muxer is sent back in time. */
module PlaybackExamples {
  import opened Options
  import opened Rounding
  import RM = RecorderModel
  import RR = RecorderRuns
  import RT = RecorderTiming
  import MR = MuxerRuns
  import opened Playback
  import opened PlaybackRuns
  import opened RecordAndPlay
  import opened RecordingExamples
  import opened EndToEnd

  /** The only file of a recording as a segment, its tracks in this order. */
  function AsSegment(f: RM.File, tracks: seq<RM.Track>, streamID: seq<Byte>, start: int): SegmentFile
    requires RM.ValidTracks(tracks) && |f.parts| == 2
    requires 0 in f.parts[0].tracks && 1 in f.parts[0].tracks && 0 in f.parts[1].tracks
  {
    SegmentFile(Header(f, tracks, streamID), start,
                [[ToRun(f.parts[0].tracks[0]), ToRun(f.parts[0].tracks[1])], [ToRun(f.parts[1].tracks[0])]])
  }

  lemma {:induction false} TwoRuns(p: RM.Part)
    requires p.tracks.Keys == {0, 1}
    ensures HoldsPart([ToRun(p.tracks[0]), ToRun(p.tracks[1])], p)
  {
    assert IsPart([ToRun(p.tracks[0]), ToRun(p.tracks[1])], p, [0, 1]);
  }

  lemma {:induction false} OneRun(p: RM.Part)
    requires p.tracks.Keys == {0}
    ensures HoldsPart([ToRun(p.tracks[0])], p)
  {
    assert IsPart([ToRun(p.tracks[0])], p, [0]);
  }

  lemma {:induction false} AsSegmentIsFile(f: RM.File, tracks: seq<RM.Track>, streamID: seq<Byte>, start: int)
    requires RM.ValidTracks(tracks) && |f.parts| == 2
    requires f.parts[0].tracks.Keys == {0, 1} && f.parts[1].tracks.Keys == {0}
    ensures IsFile(AsSegment(f, tracks, streamID, start), f, tracks, streamID)
  {
    var parts := AsSegment(f, tracks, streamID, start).parts;
    forall m | 0 <= m < 2 ensures HoldsPart(parts[m], f.parts[m]) {
      if m == 0 {
        TwoRuns(f.parts[0]);
      } else {
        OneRun(f.parts[1]);
      }
    }
  }

  /** The file of RecordingExamples.BackFile. */
  predicate IsBackFile(f: RM.File, t: int, b: int, u: int) {
    && t > 0 && u > 0 && f.startDTS == 0 && |f.parts| == 2
    && f.parts[0].tracks.Keys == {0, 1} && f.parts[1].tracks.Keys == {0}
    && f.parts[0].tracks[0] == RM.PartTrack(0, 0, [Tick(0, t), Tick(t, 0)])
    && f.parts[0].tracks[1] == RM.PartTrack(1, 0, [Tick(0, u)])
    && f.parts[1].tracks[0] == RM.PartTrack(0, b, [Tick(t, 1)])
  }

  lemma {:induction false} BackFileIs(c: RM.Settings, rate: int, t: int, d: int, b: int, other: int, u: int, e: int)
    requires LosesTicks(rate, t, d, b) && Takes(other, u, e) && d < e == c.partDuration
    ensures var tracks := Pair(rate, other, None, None);
            && RR.ValidInputs(tracks, BackInputs(t, u)) && |Recorded(tracks, BackInputs(t, u), c)| == 1
            && IsBackFile(Recorded(tracks, BackInputs(t, u), c)[0], t, b, u)
  {
    var duration, end := BackFile(c, rate, t, d, b, other, u, e);
    var p, q := WithOther(t, u, e).curPart.value, RecordingExamples.LaterPart(t, d, b, end);
    assert p.tracks.Keys == {0, 1} && q.tracks.Keys == {0};
  }

  /** Played from its beginning on, a run has no samples beyond an end that is later than its last sample. */
  lemma {:induction false} RunIsNotLate(run: Run, q: Request, i: nat)
    requires FindTrack(q.tracks, run.trackID) == Some(i) && i < |q.tracks|
    requires forall k: nat :: k < |run.entries| ==> PlayDTS(run, q.Start(i), k) < q.Limit(i)
    ensures !HasLateSample(run, q)
  {
  }

  lemma {:induction false} BackFileIsNotLate(
    f: RM.File, tracks: seq<RM.Track>, segment: SegmentFile, q: Request, t: int, b: int, u: int)
    requires RM.ValidTracks(tracks) && |tracks| == 2 && HaveDistinctIDs(tracks) && tracks[0].id == 0 &&
             tracks[1].id == 1
    requires IsBackFile(f, t, b, u) && b < t && segment.parts ==
      [[ToRun(f.parts[0].tracks[0]), ToRun(f.parts[0].tracks[1])], [ToRun(f.parts[1].tracks[0])]]
    requires q.tracks == ToInit(tracks) && q.Start(0) == 0 && q.Start(1) == 0 && q.Limit(0) > t && q.Limit(1) > 0
    ensures !AnyIsLate(segment.parts, q)
  {
    FoundByID(tracks, 0);
    FoundByID(tracks, 1);
    var x, y, z := f.parts[0].tracks[0], f.parts[0].tracks[1], f.parts[1].tracks[0];
    assert SumDurations(ToRun(x).entries, 1) == SumDurations(ToRun(x).entries, 0) + t;
    RunIsNotLate(ToRun(x), q, 0);
    RunIsNotLate(ToRun(y), q, 1);
    RunIsNotLate(ToRun(z), q, 0);
    forall n: nat | n < |segment.parts| ensures !PartIsLate(segment.parts[n], q) {
      assert n == 0 || n == 1;
    }
  }

  /** What is played of a session with one segment of which nothing is late. */
  lemma {:induction false} AllIsPlayed(p: Session)
    requires p.Valid() && |p.segments| == 1
    requires !AnyIsLate(p.segments[0].parts, RequestOf(p.segments, 0, p.start, p.duration))
    ensures p.At() == [RequestOf(p.segments, 0, p.start, p.duration)] && p.Played() == [p.files[0].parts]
  {
    assert IsFile(p.segments[0], p.files[0], p.tracks, p.streamID);
    assert p.Result().played == 1;
    assert p.files[0].parts[..|p.files[0].parts|] == p.files[0].parts;
  }

  lemma {:induction false} BackSessionGoesBack(
    p: Session, inputs: seq<RR.Input>, c: RM.Settings, t: int, b: int, u: int)
    requires p.Valid() && IsOf(p, inputs, c, 0) && |p.tracks| == 2 && |p.files| == 1 && |p.segments| == 1
    requires IsBackFile(p.files[0], t, b, u) && b < t && p.Offset() == 0
    requires p.At() == [RequestOf(p.segments, 0, p.start, p.duration)] && p.Played() == [p.files[0].parts]
    requires p.At()[0].tracks == ToInit(p.tracks) && p.At()[0].Start(0) == 0 && p.At()[0].Limit(0) > t
    requires DurationGoToMp4(0, p.tracks[0].timeScale) == 0
    ensures !MR.NonDecreasing(MR.History(p.Result().calls, 0))
  {
    var x, y := Position(0, 0, 1), Position(0, 1, 0);
    var a := p.files[0].parts[0].tracks[0];
    assert SumDurations(ToRun(a).entries, 1) == SumDurations(ToRun(a).entries, 0) + t;
    assert RT.SumDurations(a.samples, 1) == RT.SumDurations(a.samples, 0) + t;
    WrongOrderIsSeen(p, inputs, c, 0, 0, x, y);
  }

  lemma {:induction false} BackSession(
    p: Session, inputs: seq<RR.Input>, c: RM.Settings, rate: int, other: int, t: int, b: int, u: int)
    requires p.Valid() && IsOf(p, inputs, c, 0) && |p.files| == 1 && IsBackFile(p.files[0], t, b, u) && b < t
    requires rate > 0 && other > 0 && p.tracks == Pair(rate, other, None, None)
    requires p.segments == [AsSegment(p.files[0], p.tracks, p.streamID, p.start)]
    requires DurationGoToMp4(0, rate) == 0 && DurationGoToMp4(0, other) == 0
    requires DurationGoToMp4(p.duration, rate) > t && DurationGoToMp4(p.duration, other) > 0
    ensures !MR.NonDecreasing(MR.History(p.Result().calls, 0))
  {
    var q := RequestOf(p.segments, 0, p.start, p.duration);
    assert q.tracks[0].timeScale == rate && q.tracks[1].timeScale == other;
    BackFileIsNotLate(p.files[0], p.tracks, p.segments[0], q, t, b, u);
    AllIsPlayed(p);
    BackSessionGoesBack(p, inputs, c, t, b, u);
  }

  /** Whenever a time loses ticks on its way through nanoseconds, there is a recording that sends the muxers back
      in time when it is played from its beginning. */
  lemma {:induction false} SentBackExample(
    c: RM.Settings, rate: int, t: int, d: int, b: int, other: int, u: int, e: int,
    streamID: seq<Byte>, start: int, duration: int)
    returns (p: Session)
    requires LosesTicks(rate, t, d, b) && Takes(other, u, e) && d < e == c.partDuration
    requires DurationGoToMp4(duration, rate) > t && DurationGoToMp4(duration, other) > 0
    ensures p.Valid() && IsOf(p, BackInputs(t, u), c, 0) && p.tracks == Pair(rate, other, None, None)
    ensures !MR.NonDecreasing(MR.History(p.Result().calls, 0))
  {
    var tracks := Pair(rate, other, None, None);
    BackFileIs(c, rate, t, d, b, other, u, e);
    var files := Recorded(tracks, BackInputs(t, u), c);
    AsSegmentIsFile(files[0], tracks, streamID, start);
    p := Session(tracks, streamID, files, [AsSegment(files[0], tracks, streamID, start)], start, duration);
    RecordingsPlay(p, BackInputs(t, u), c, 0);
    BackSession(p, BackInputs(t, u), c, rate, other, t, b, u);
  }

  lemma {:induction false} SecondOfClock(rate: nat)
    requires 0 < rate < RM.UINT32
    ensures Takes(rate, rate, SECOND) && DurationGoToMp4(SECOND, rate) == rate
  {
    SmallConversion(0, SECOND, rate, 0);
    SmallConversion(rate, SECOND, rate, SECOND);
    SmallConversion(0, rate, SECOND, 0);
    SmallConversion(SECOND, rate, SECOND, rate);
  }

  /** Any clock and time with these numbers will do, with parts of a second. */
  lemma {:induction false} SentBackByNumbers(
    c: RM.Settings, rate: nat, t: nat, d: nat, b: nat, other: nat, streamID: seq<Byte>, start: int)
    returns (p: Session)
    requires 0 < t < rate < RM.UINT32 && b < t && 0 < other < RM.UINT32 && d < SECOND == c.partDuration
    requires d * rate <= t * SECOND < d * rate + rate && b * SECOND <= d * rate < b * SECOND + SECOND
    ensures p.Valid() && IsOf(p, BackInputs(t, other), c, 0) && p.tracks == Pair(rate, other, None, None)
    ensures !MR.NonDecreasing(MR.History(p.Result().calls, 0))
  {
    TicksAreLost(rate, t, d, b);
    SecondOfClock(rate);
    SecondOfClock(other);
    p := SentBackExample(c, rate, t, d, b, other, other, SECOND, streamID, start, SECOND);
  }

  /** These are the usual clocks of video and audio. */
  lemma {:induction false} UsualClocksExample(c: RM.Settings, rate: nat, other: nat, streamID: seq<Byte>, start: int)
    returns (p: Session, inputs: seq<RR.Input>)
    requires c.partDuration == SECOND && rate == 90000 && other == 48000
    ensures p.Valid() && IsOf(p, inputs, c, 0) && p.tracks == Pair(rate, other, None, None)
    ensures !MR.NonDecreasing(MR.History(p.Result().calls, 0))
  {
    inputs := BackInputs(1, other);
    p := SentBackByNumbers(c, rate, 1, 11111, 0, other, streamID, start);
  }
}
