/** Two short recordings that show what truncation does at the border of two parts. */
module RecordingExamples {
  import opened Options
  import opened Rounding
  import opened RecorderModel
  import opened RecorderRuns
  import P = Playback
  import PO = PlaybackOrder
  import RP = RecordAndPlay
  import RT = RecorderTiming

  /** A sample without payload that is not a sync sample. */
  function Tick(dts: int, duration: nat): Sample {
    Sample([], dts, 0, 0, true, duration)
  }

  function Audio(id: int, timeScale: int, next: Option<Sample>): Track {
    Track(id, timeScale, false, next)
  }

  lemma {:induction false} RecordSnoc(tracks: seq<Track>, inputs: seq<Input>, x: Input, c: Settings)
    requires ValidInputs(tracks, inputs + [x]) && ValidInputs(tracks, inputs)
    ensures var s := Record(tracks, inputs, c);
            Record(tracks, inputs + [x], c) == if s.failed then s else Write(s, x.track, x.sample, c)
  {
    assert (inputs + [x])[..|inputs|] == inputs;
  }

  /** The first sample of a track only becomes pending. */
  lemma {:induction false} FirstWrite(s: State, i: nat, x: Sample, c: Settings)
    requires ValidTracks(s.tracks) && i < |s.tracks| && s.tracks[i].next.None? && !s.tracks[i].video
    ensures Write(s, i, x, c) == s.(tracks := s.tracks[i := s.tracks[i].(next := Some(x))])
  {
  }

  /** What a segment makes of a sample that fits, in terms of the part that takes it. */
  lemma {:induction false} Written(g: Segment, i: nat, track: Track, x: Sample, dts: int, c: Settings, p: Part)
    requires track.timeScale > 0 && x.payload == []
    requires Some(p) == PreparePart(g, dts, c.partDuration).curPart && p.size == 0
    ensures var h := PreparePart(g, dts, c.partDuration);
            var pt := if i in p.tracks then p.tracks[i] else PartTrack(track.id, BaseTime(track, dts, g.startDTS), []);
            var end := dts + Dts(track, x.duration);
            SegmentWrite(g, i, track, x, dts, c) ==
            (h.(endDTS := Max(g.endDTS, end),
                curPart := Some(Part(p.number, p.startDTS, p.tracks[i := pt.(samples := pt.samples + [x])], 0,
                                     Max(p.endDTS, end)))),
             true)
  {
  }

  lemma {:induction false} KnownSample(s: State, i: nat, x: Sample, y: Sample)
    requires ValidTracks(s.tracks) && i < |s.tracks| && s.tracks[i].next.Some? && !s.tracks[i].video
    requires x.dts >= s.tracks[i].next.value.dts && y == WithDuration(s.tracks[i].next.value, x)
    ensures Accept(s, i, x) == (s.(tracks := s.tracks[i := s.tracks[i].(next := Some(x))]), Some(y))
  {
  }

  lemma {:induction false} Kept(u: State, i: nat, y: Sample, c: Settings, h: Segment)
    requires ValidTracks(u.tracks) && i < |u.tracks| && u.segment.Some?
    requires SegmentWrite(u.segment.value, i, u.tracks[i], y, Dts(u.tracks[i], y.dts), c) == (h, true)
    ensures var v := Keep(u, i, y, c);
            v.segment == Some(h) && v.failed == u.failed && v.nextSegmentNumber == u.nextSegmentNumber &&
              v.hasVideo == u.hasVideo
  {
  }

  /** A sample that is not late and not followed by a sync sample is stored without a switch. */
  lemma {:induction false} Stored(s: State, i: nat, y: Sample, c: Settings, g: Segment, h: Segment, dts: int)
    requires ValidTracks(s.tracks) && i < |s.tracks| && s.tracks[i].next.Some? && s.tracks[i].next.value.nonSync &&
             !s.failed
    requires dts == Dts(s.tracks[i], y.dts) >= g.startDTS && SegmentWrite(g, i, s.tracks[i], y, dts, c) == (h, true)
    requires if s.segment.Some? then s.segment == Some(g) else g == NewSegment(s.nextSegmentNumber, dts, y.ntp)
    ensures var t := Store(s, i, y, c);
            && t.tracks == s.tracks && t.segment == Some(h) && t.files == s.files && !t.failed &&
               t.hasVideo == s.hasVideo
            && t.nextSegmentNumber == (if s.segment.Some? then s.nextSegmentNumber else s.nextSegmentNumber + 1)
  {
    var u := if s.segment.None? then OpenSegment(s, dts, y.ntp) else s;
    Kept(u, i, y, c, h);
  }

  /** A later sample makes its predecessor known, which is written if it is not late. */
  lemma {:induction false} NextWrite(
    s: State, i: nat, x: Sample, y: Sample, c: Settings, g: Segment, h: Segment, dts: int)
    requires ValidTracks(s.tracks) && i < |s.tracks| && s.tracks[i].next.Some? && !s.tracks[i].video && !s.failed &&
             x.nonSync
    requires x.dts >= s.tracks[i].next.value.dts && y == WithDuration(s.tracks[i].next.value, x)
    requires dts == Dts(s.tracks[i], y.dts) >= g.startDTS && SegmentWrite(g, i, s.tracks[i], y, dts, c) == (h, true)
    requires if s.segment.Some? then s.segment == Some(g) else g == NewSegment(s.nextSegmentNumber, dts, y.ntp)
    ensures var t := Write(s, i, x, c);
            && t.tracks == s.tracks[i := s.tracks[i].(next := Some(x))]
            && t.segment == Some(h) && t.files == s.files && !t.failed && t.hasVideo == s.hasVideo
            && t.nextSegmentNumber == (if s.segment.Some? then s.nextSegmentNumber else s.nextSegmentNumber + 1)
  {
    KnownSample(s, i, x, y);
    SameClock(g, i, s.tracks[i], Some(x), y, dts, c);
    Stored(s.(tracks := s.tracks[i := s.tracks[i].(next := Some(x))]), i, y, c, g, h, dts);
  }

  /** The pending sample of a track does not matter to what is written of it. */
  lemma {:induction false} SameClock(
    g: Segment, i: nat, track: Track, next: Option<Sample>, y: Sample, dts: int, c: Settings)
    requires track.timeScale > 0
    ensures Dts(track.(next := next), y.dts) == Dts(track, y.dts)
    ensures SegmentWrite(g, i, track.(next := next), y, dts, c) == SegmentWrite(g, i, track, y, dts, c)
  {
  }

  // a track that goes back

  /** A time of a clock that loses ticks on the way to nanoseconds and back: d is the time in nanoseconds and
      b is what becomes of it. */
  predicate LosesTicks(rate: int, t: int, d: int, b: int) {
    && rate > 0 && 0 < t < UINT32 && d >= 0 && b < t
    && TimestampToDuration(0, rate) == 0 && TimestampToDuration(t, rate) == d
    && DurationGoToMp4(0, rate) == 0 && DurationGoToMp4(d, rate) == b
  }

  /** A time of another clock, of which only its length e in nanoseconds matters. */
  predicate Takes(rate: int, u: int, e: int) {
    && rate > 0 && 0 < u < UINT32
    && TimestampToDuration(0, rate) == 0 && TimestampToDuration(u, rate) == e && DurationGoToMp4(0, rate) == 0
  }

  /** What is in memory while the example is being recorded. */
  predicate IsState(s: State, tracks: seq<Track>, g: Option<Segment>) {
    && s.tracks == tracks && s.segment == g && s.files == []
    && !s.failed && !s.hasVideo && s.nextSegmentNumber == (if g.Some? then 1 else 0)
  }

  function InSegment(p: Part, endDTS: int): Segment {
    Segment(0, 0, 0, [], Some(p), endDTS, 1)
  }

  function OneSample(t: int, d: int): Part
    requires 0 <= t
  {
    Part(0, 0, map[0 := PartTrack(0, 0, [Tick(0, t)])], 0, d)
  }

  function TwoSamples(t: int, other: map<nat, PartTrack>, endDTS: int): Part
    requires 0 <= t
  {
    Part(0, 0, other[0 := PartTrack(0, 0, [Tick(0, t), Tick(t, 0)])], 0, endDTS)
  }

  function WithOther(t: int, u: int, e: int): Segment
    requires 0 <= t && 0 <= u
  {
    InSegment(TwoSamples(t, map[1 := PartTrack(1, 0, [Tick(0, u)])], e), e)
  }

  function LaterPart(t: int, d: int, b: int, end: int): Part {
    Part(1, d, map[0 := PartTrack(0, b, [Tick(t, 1)])], 0, end)
  }

  lemma {:induction false} FirstWritten(track: Track, c: Settings, t: int, d: int, b: int)
    requires LosesTicks(track.timeScale, t, d, b) && track.id == 0
    ensures SegmentWrite(NewSegment(0, 0, 0), 0, track, Tick(0, t), 0, c) == (InSegment(OneSample(t, d), d), true)
  {
    var y := Tick(0, t);
    Written(NewSegment(0, 0, 0), 0, track, y, 0, c, NewPart(0, 0));
    assert [] + [y] == [y];
  }

  lemma {:induction false} SecondWritten(g: Segment, track: Track, c: Settings, t: int, d: int, b: int)
    requires LosesTicks(track.timeScale, t, d, b) && track.id == 0 && d < c.partDuration &&
             g == InSegment(OneSample(t, d), d)
    ensures SegmentWrite(g, 0, track, Tick(t, 0), d, c) == (InSegment(TwoSamples(t, map[], d), d), true)
  {
    var y := Tick(t, 0);
    Written(g, 0, track, y, d, c, g.curPart.value);
    assert [Tick(0, t)] + [y] == [Tick(0, t), y];
    assert map[0 := PartTrack(0, 0, [Tick(0, t)])][0 := PartTrack(0, 0, [Tick(0, t), y])] ==
           map[][0 := PartTrack(0, 0, [Tick(0, t), y])];
  }

  lemma {:induction false} OtherWritten(g: Segment, track: Track, c: Settings, t: int, d: int, u: int, e: int)
    requires Takes(track.timeScale, u, e) && 0 < t && 0 <= d < e == c.partDuration && track.id == 1
    requires g == InSegment(TwoSamples(t, map[], d), d)
    ensures SegmentWrite(g, 1, track, Tick(0, u), 0, c) == (WithOther(t, u, e), true)
  {
    var y, x := Tick(0, u), PartTrack(0, 0, [Tick(0, t), Tick(t, 0)]);
    Written(g, 1, track, y, 0, c, g.curPart.value);
    assert [] + [y] == [y];
    assert map[][0 := x][1 := PartTrack(1, 0, [y])] == map[1 := PartTrack(1, 0, [y])][0 := x];
  }

  lemma {:induction false} ThirdWritten(g: Segment, track: Track, c: Settings, t: int, d: int, b: int, e: int, p: Part)
    returns (h: Segment, end: int)
    requires LosesTicks(track.timeScale, t, d, b) && track.id == 0 && e == c.partDuration
    requires p.startDTS == 0 && p.endDTS == e && g == InSegment(p, e)
    ensures SegmentWrite(g, 0, track, Tick(t, 1), d, c) == (h, true)
    ensures h == Segment(0, 0, 0, [p], Some(LaterPart(t, d, b, end)), h.endDTS, 2)
  {
    var y := Tick(t, 1);
    Written(g, 0, track, y, d, c, NewPart(1, d));
    assert [] + [y] == [y] && [] + [p] == [p];
    h := SegmentWrite(g, 0, track, y, d, c).0;
    end := h.curPart.value.endDTS;
  }

  lemma {:induction false} PendingStep(s: State, tracks: seq<Track>, g: Option<Segment>, i: nat, x: Sample, c: Settings)
    requires ValidTracks(tracks) && IsState(s, tracks, g) && i < |tracks| && tracks[i].next.None? && !tracks[i].video
    ensures IsState(Write(s, i, x, c), tracks[i := tracks[i].(next := Some(x))], g)
  {
    FirstWrite(s, i, x, c);
  }

  lemma {:induction false} KeptStep(
    s: State, tracks: seq<Track>, was: Option<Segment>, i: nat, x: Sample, y: Sample, c: Settings, g: Segment,
    h: Segment, dts: int)
    requires ValidTracks(tracks) && IsState(s, tracks, was) && i < |tracks| && tracks[i].next.Some? &&
             !tracks[i].video && x.nonSync
    requires x.dts >= tracks[i].next.value.dts && y == WithDuration(tracks[i].next.value, x)
    requires dts == Dts(tracks[i], y.dts) >= g.startDTS && SegmentWrite(g, i, tracks[i], y, dts, c) == (h, true)
    requires was == Some(g) || (was.None? && g == NewSegment(0, dts, y.ntp))
    ensures IsState(Write(s, i, x, c), tracks[i := tracks[i].(next := Some(x))], Some(h))
  {
    NextWrite(s, i, x, y, c, g, h, dts);
  }

  lemma {:induction false} Followed(a: int, b: int)
    requires 0 <= b - a < UINT32
    ensures WithDuration(Tick(a, 0), Tick(b, 0)) == Tick(a, b - a)
  {
  }

  function Pair(rate: int, other: int, first: Option<Sample>, second: Option<Sample>): seq<Track> {
    [Audio(0, rate, first), Audio(1, other, second)]
  }

  lemma {:induction false} RecordPending(
    tracks: seq<Track>, inputs: seq<Input>, c: Settings, before: seq<Track>, g: Option<Segment>, i: nat, x: Sample)
    requires ValidInputs(tracks, inputs) && ValidTracks(before) && |before| == |tracks| &&
             IsState(Record(tracks, inputs, c), before, g)
    requires i < |before| && before[i].next.None? && !before[i].video
    ensures ValidInputs(tracks, inputs + [Input(i, x)])
    ensures IsState(Record(tracks, inputs + [Input(i, x)], c), before[i := before[i].(next := Some(x))], g)
  {
    RecordSnoc(tracks, inputs, Input(i, x), c);
    PendingStep(Record(tracks, inputs, c), before, g, i, x, c);
  }

  lemma {:induction false} RecordKept(
    tracks: seq<Track>, inputs: seq<Input>, c: Settings, before: seq<Track>, was: Option<Segment>, i: nat, x: Sample,
    y: Sample,
    g: Segment, h: Segment, dts: int)
    requires ValidInputs(tracks, inputs) && ValidTracks(before) && |before| == |tracks| &&
             IsState(Record(tracks, inputs, c), before, was)
    requires i < |before| && before[i].next.Some? && !before[i].video && x.nonSync
    requires x.dts >= before[i].next.value.dts && y == WithDuration(before[i].next.value, x)
    requires dts == Dts(before[i], y.dts) >= g.startDTS && SegmentWrite(g, i, before[i], y, dts, c) == (h, true)
    requires was == Some(g) || (was.None? && g == NewSegment(0, dts, y.ntp))
    ensures ValidInputs(tracks, inputs + [Input(i, x)])
    ensures IsState(Record(tracks, inputs + [Input(i, x)], c), before[i := before[i].(next := Some(x))], Some(h))
  {
    RecordSnoc(tracks, inputs, Input(i, x), c);
    KeptStep(Record(tracks, inputs, c), before, was, i, x, y, c, g, h, dts);
  }

  /** Two samples at time t, the first of them without duration ... */
  function FirstInputs(t: int): seq<Input> {
    (([] + [Input(0, Tick(0, 0))]) + [Input(0, Tick(t, 0))]) + [Input(0, Tick(t, 0))]
  }

  /** ... and between their arrivals one of another track. */
  function BackInputs(t: int, u: int): seq<Input> {
    ((FirstInputs(t) + [Input(1, Tick(0, 0))]) + [Input(1, Tick(u, 0))]) + [Input(0, Tick(t + 1, 0))]
  }

  lemma {:induction false} FirstHalf(
    tracks: seq<Track>, inputs: seq<Input>, c: Settings, rate: int, t: int, d: int, b: int, other: int)
    requires LosesTicks(rate, t, d, b) && d < c.partDuration && other > 0 && tracks == Pair(rate, other, None, None)
    requires ValidInputs(tracks, inputs) && IsState(Record(tracks, inputs, c), tracks, None)
    ensures var all := ((inputs + [Input(0, Tick(0, 0))]) + [Input(0, Tick(t, 0))]) + [Input(0, Tick(t, 0))];
            && ValidInputs(tracks, all)
            && IsState(Record(tracks, all, c), Pair(rate, other, Some(Tick(t, 0)), None),
                       Some(InSegment(TwoSamples(t, map[], d), d)))
  {
    RecordPending(tracks, inputs, c, tracks, None, 0, Tick(0, 0));
    assert tracks[0 := Audio(0, rate, Some(Tick(0, 0)))] == Pair(rate, other, Some(Tick(0, 0)), None);
    TwoAtOnce(tracks, inputs + [Input(0, Tick(0, 0))], c, rate, t, d, b, other);
  }

  lemma {:induction false} NothingRecorded(tracks: seq<Track>, c: Settings)
    requires ValidTracks(tracks)
    ensures ValidInputs(tracks, []) && IsState(Record(tracks, [], c), tracks, None)
  {
  }

  lemma {:induction false} TwoAtOnce(
    tracks: seq<Track>, inputs: seq<Input>, c: Settings, rate: int, t: int, d: int, b: int, other: int)
    requires LosesTicks(rate, t, d, b) && d < c.partDuration && other > 0 && ValidInputs(tracks, inputs) &&
             |tracks| == 2
    requires IsState(Record(tracks, inputs, c), Pair(rate, other, Some(Tick(0, 0)), None), None)
    ensures var all := (inputs + [Input(0, Tick(t, 0))]) + [Input(0, Tick(t, 0))];
            && ValidInputs(tracks, all)
            && IsState(Record(tracks, all, c), Pair(rate, other, Some(Tick(t, 0)), None),
                       Some(InSegment(TwoSamples(t, map[], d), d)))
  {
    var p, q := Pair(rate, other, Some(Tick(0, 0)), None), Pair(rate, other, Some(Tick(t, 0)), None);
    var next, g := inputs + [Input(0, Tick(t, 0))], InSegment(OneSample(t, d), d);
    Followed(0, t);
    FirstWritten(p[0], c, t, d, b);
    RecordKept(tracks, inputs, c, p, None, 0, Tick(t, 0), Tick(0, t), NewSegment(0, 0, 0), g, 0);
    assert p[0 := Audio(0, rate, Some(Tick(t, 0)))] == q;
    Followed(t, t);
    SecondWritten(g, q[0], c, t, d, b);
    RecordKept(tracks, next, c, q, Some(g), 0, Tick(t, 0), Tick(t, 0), g, InSegment(TwoSamples(t, map[], d), d), d);
    assert q[0 := Audio(0, rate, Some(Tick(t, 0)))] == q;
  }

  lemma {:induction false} SecondHalf(
    tracks: seq<Track>, inputs: seq<Input>, c: Settings, rate: int, t: int, d: int, b: int, other: int, u: int, e: int)
    returns (h: Segment, end: int)
    requires LosesTicks(rate, t, d, b) && Takes(other, u, e) && d < e == c.partDuration
    requires ValidInputs(tracks, inputs) && |tracks| == 2
    requires IsState(Record(tracks, inputs, c), Pair(rate, other, Some(Tick(t, 0)), None),
                     Some(InSegment(TwoSamples(t, map[], d), d)))
    ensures var all := ((inputs + [Input(1, Tick(0, 0))]) + [Input(1, Tick(u, 0))]) + [Input(0, Tick(t + 1, 0))];
            && ValidInputs(tracks, all)
            && IsState(Record(tracks, all, c), Pair(rate, other, Some(Tick(t + 1, 0)), Some(Tick(u, 0))), Some(h))
    ensures h == Segment(0, 0, 0, [WithOther(t, u, e).curPart.value], Some(LaterPart(t, d, b, end)), h.endDTS, 2)
  {
    var before, g := Pair(rate, other, Some(Tick(t, 0)), None), InSegment(TwoSamples(t, map[], d), d);
    var p, q := Pair(rate, other, Some(Tick(t, 0)), Some(Tick(0, 0))),
      Pair(rate, other, Some(Tick(t, 0)), Some(Tick(u, 0)));
    var n1 := inputs + [Input(1, Tick(0, 0))];
    RecordPending(tracks, inputs, c, before, Some(g), 1, Tick(0, 0));
    assert before[1 := Audio(1, other, Some(Tick(0, 0)))] == p;
    var n2, w := n1 + [Input(1, Tick(u, 0))], WithOther(t, u, e);
    Followed(0, u);
    OtherWritten(g, p[1], c, t, d, u, e);
    RecordKept(tracks, n1, c, p, Some(g), 1, Tick(u, 0), Tick(0, u), g, w, 0);
    assert p[1 := Audio(1, other, Some(Tick(u, 0)))] == q;
    Followed(t, t + 1);
    h, end := ThirdWritten(w, q[0], c, t, d, b, e, w.curPart.value);
    RecordKept(tracks, n2, c, q, Some(w), 0, Tick(t + 1, 0), Tick(t, 1), w, h, d);
    assert q[0 := Audio(0, rate, Some(Tick(t + 1, 0)))] == Pair(rate, other, Some(Tick(t + 1, 0)), Some(Tick(u, 0)));
  }

  /** The file of that recording. */
  lemma {:induction false} BackFile(c: Settings, rate: int, t: int, d: int, b: int, other: int, u: int, e: int)
    returns (duration: int, end: int)
    requires LosesTicks(rate, t, d, b) && Takes(other, u, e) && d < e == c.partDuration
    ensures var tracks := Pair(rate, other, None, None);
            && ValidInputs(tracks, BackInputs(t, u))
            && RP.Recorded(tracks, BackInputs(t, u), c) ==
               [File(0, 0, 0, [WithOther(t, u, e).curPart.value, LaterPart(t, d, b, end)], duration)]
  {
    var tracks := Pair(rate, other, None, None);
    NothingRecorded(tracks, c);
    FirstHalf(tracks, [], c, rate, t, d, b, other);
    var h;
    h, end := SecondHalf(tracks, FirstInputs(t), c, rate, t, d, b, other, u, e);
    duration := h.endDTS;
    ClosedFile(Record(tracks, BackInputs(t, u), c), h, WithOther(t, u, e).curPart.value, LaterPart(t, d, b, end));
  }

  lemma {:induction false} ClosedFile(s: State, h: Segment, p: Part, q: Part)
    requires s.segment == Some(h) && s.files == [] && h == Segment(0, h.startDTS, 0, [p], Some(q), h.endDTS, 2)
    ensures Close(s).files == [File(0, h.startDTS, 0, [p, q], h.endDTS - h.startDTS)]
  {
    assert [p] + [q] == [p, q];
    var f := File(0, h.startDTS, 0, [p, q], h.endDTS - h.startDTS);
    assert [] + [f] == [f];
  }

  lemma {:induction false} BackParts(a: PartTrack, b: PartTrack, t: int, base: int, start: int)
    requires 0 < t && base < t && a == PartTrack(0, 0, [Tick(0, t), Tick(t, 0)]) &&
             b == PartTrack(0, base, [Tick(t, 1)])
    ensures P.PlayDTS(RP.ToRun(b), start, 0) < P.PlayDTS(RP.ToRun(a), start, 1)
  {
    assert P.SumDurations(RP.ToRun(a).entries, 1) == P.SumDurations(RP.ToRun(a).entries, 0) +
           RP.ToRun(a).entries[0].duration;
  }

  /** Whenever a time loses ticks on its way through nanoseconds, a track with two samples at that time can be
      played backwards: the second one opens a part and is played before the first one, which ends the previous
      part. Its samples are not well spaced. */
  lemma {:induction false} PlayedBackwardsExample(
    c: Settings, rate: int, t: int, d: int, b: int, other: int, u: int, e: int, start: int)
    requires LosesTicks(rate, t, d, b) && Takes(other, u, e) && d < e == c.partDuration
    ensures ValidInputs(Pair(rate, other, None, None), BackInputs(t, u))
    ensures var files := RP.Recorded(Pair(rate, other, None, None), BackInputs(t, u), c);
            && |files| == 1 && |files[0].parts| == 2 && 0 in files[0].parts[0].tracks && 0 in files[0].parts[1].tracks
            && var x, y := files[0].parts[0].tracks[0], files[0].parts[1].tracks[0];
               && |x.samples| == 2 && |y.samples| == 1 && x.samples[1].dts == y.samples[0].dts == t
               && P.PlayDTS(RP.ToRun(y), start, 0) < P.PlayDTS(RP.ToRun(x), start, 1)
    ensures !PO.IsWellSpaced(RP.Recorded(Pair(rate, other, None, None), BackInputs(t, u), c), 0, rate)
  {
    var duration, end := BackFile(c, rate, t, d, b, other, u, e);
    var files := RP.Recorded(Pair(rate, other, None, None), BackInputs(t, u), c);
    BackParts(files[0].parts[0].tracks[0], files[0].parts[1].tracks[0], t, b, start);
    assert PO.AreSuccessive(files, 0, 0, 0, 0, 1);
  }

  lemma {:induction false} SmallConversion(v: nat, m: nat, d: int, q: nat)
    requires d > 0 && q * d <= v * m < q * d + d
    ensures MultiplyAndDivide(v, m, d) == q
  {
    MultiplyAndDivideExact(v, m, d);
    QuoCharacterized(v * m, d, q);
  }

  lemma {:induction false} TicksAreLost(rate: nat, t: nat, d: nat, b: nat)
    requires rate > 0 && 0 < t < UINT32 && b < t
    requires d * rate <= t * SECOND < d * rate + rate && b * SECOND <= d * rate < b * SECOND + SECOND
    ensures LosesTicks(rate, t, d, b)
  {
    SmallConversion(0, SECOND, rate, 0);
    SmallConversion(0, rate, SECOND, 0);
    SmallConversion(t, SECOND, rate, d);
    SmallConversion(d, rate, SECOND, b);
  }

  // two parts that lie two ticks too close

  /** A track with samples at times t and w, which are at s and v nanoseconds; e is how long the first one lasts,
      and b how far v is from s in ticks. */
  predicate AreApart(rate: int, t: int, w: int, s: int, v: int, e: int, b: int) {
    && rate > 0 && 0 < w - t < UINT32
    && TimestampToDuration(t, rate) == s <= v == TimestampToDuration(w, rate)
    && TimestampToDuration(w - t, rate) == e && DurationGoToMp4(0, rate) == 0 && DurationGoToMp4(v - s, rate) == b
  }

  function FirstPart(t: int, w: int, s: int, end: int): Part
    requires t <= w
  {
    Part(0, s, map[0 := PartTrack(0, 0, [Tick(t, w - t)])], 0, end)
  }

  function NextPart(w: int, v: int, b: int, end: int): Part {
    Part(1, v, map[0 := PartTrack(0, b, [Tick(w, 1)])], 0, end)
  }

  lemma {:induction false} ApartWritten(track: Track, c: Settings, t: int, w: int, s: int, v: int, e: int, b: int)
    requires AreApart(track.timeScale, t, w, s, v, e, b) && track.id == 0
    ensures SegmentWrite(NewSegment(0, s, 0), 0, track, Tick(t, w - t), s, c) ==
            (Segment(0, s, 0, [], Some(FirstPart(t, w, s, Max(0, s + e))), Max(s, s + e), 1), true)
  {
    var y := Tick(t, w - t);
    Written(NewSegment(0, s, 0), 0, track, y, s, c, NewPart(0, s));
    assert [] + [y] == [y];
  }

  lemma {:induction false} NextWritten(
    g: Segment, track: Track, c: Settings, t: int, w: int, s: int, v: int, e: int, b: int, p: Part)
    returns (h: Segment, end: int)
    requires AreApart(track.timeScale, t, w, s, v, e, b) && track.id == 0
    requires p.startDTS == s && p.endDTS - s >= c.partDuration && g == Segment(0, s, 0, [], Some(p), g.endDTS, 1)
    ensures SegmentWrite(g, 0, track, Tick(w, 1), v, c) == (h, true)
    ensures h == Segment(0, s, 0, [p], Some(NextPart(w, v, b, end)), h.endDTS, 2)
  {
    var y := Tick(w, 1);
    Written(g, 0, track, y, v, c, NewPart(1, v));
    assert [] + [y] == [y] && [] + [p] == [p];
    h := SegmentWrite(g, 0, track, y, v, c).0;
    end := h.curPart.value.endDTS;
  }

  lemma {:induction false} ApartRecorded(
    tracks: seq<Track>, inputs: seq<Input>, c: Settings, rate: int, t: int, w: int, s: int, v: int, e: int, b: int)
    returns (h: Segment, end: int)
    requires AreApart(rate, t, w, s, v, e, b) && Max(0, s + e) - s >= c.partDuration
    requires tracks == [Audio(0, rate, None)] && ValidInputs(tracks, inputs) &&
             IsState(Record(tracks, inputs, c), tracks, None)
    ensures var all := ((inputs + [Input(0, Tick(t, 0))]) + [Input(0, Tick(w, 0))]) + [Input(0, Tick(w + 1, 0))];
            ValidInputs(tracks, all) && IsState(Record(tracks, all, c), [Audio(0, rate, Some(Tick(w + 1, 0)))], Some(h))
    ensures h == Segment(0, s, 0, [FirstPart(t, w, s, Max(0, s + e))], Some(NextPart(w, v, b, end)), h.endDTS, 2)
  {
    var p, q := [Audio(0, rate, Some(Tick(t, 0)))], [Audio(0, rate, Some(Tick(w, 0)))];
    RecordPending(tracks, inputs, c, tracks, None, 0, Tick(t, 0));
    assert tracks[0 := p[0]] == p;
    var n1 := inputs + [Input(0, Tick(t, 0))];
    var n2, g := n1 + [Input(0, Tick(w, 0))],
      Segment(0, s, 0, [], Some(FirstPart(t, w, s, Max(0, s + e))), Max(s, s + e), 1);
    Followed(t, w);
    ApartWritten(p[0], c, t, w, s, v, e, b);
    RecordKept(tracks, n1, c, p, None, 0, Tick(w, 0), Tick(t, w - t), NewSegment(0, s, 0), g, s);
    assert p[0 := q[0]] == q;
    Followed(w, w + 1);
    h, end := NextWritten(g, q[0], c, t, w, s, v, e, b, g.curPart.value);
    RecordKept(tracks, n2, c, q, Some(g), 0, Tick(w + 1, 0), Tick(w, 1), g, h, v);
    assert q[0 := Audio(0, rate, Some(Tick(w + 1, 0)))] == [Audio(0, rate, Some(Tick(w + 1, 0)))];
  }

  function ApartInputs(t: int, w: int): seq<Input> {
    (([] + [Input(0, Tick(t, 0))]) + [Input(0, Tick(w, 0))]) + [Input(0, Tick(w + 1, 0))]
  }

  /** The parts of such a recording are as far apart as the conversions say, not as the duration says. */
  lemma {:induction false} ApartExample(c: Settings, rate: int, t: int, w: int, s: int, v: int, e: int, b: int)
    requires AreApart(rate, t, w, s, v, e, b) && Max(0, s + e) - s >= c.partDuration
    ensures ValidInputs([Audio(0, rate, None)], ApartInputs(t, w))
    ensures var files := RP.Recorded([Audio(0, rate, None)], ApartInputs(t, w), c);
            && |files| == 1 && |files[0].parts| == 2 && 0 in files[0].parts[0].tracks && 0 in files[0].parts[1].tracks
            && RP.BaseTimeGap(files[0].parts, 0, 1, 0) == b - (w - t)
  {
    NothingRecorded([Audio(0, rate, None)], c);
    var h, end := ApartRecorded([Audio(0, rate, None)], [], c, rate, t, w, s, v, e, b);
    var p, q := FirstPart(t, w, s, Max(0, s + e)), NextPart(w, v, b, end);
    ClosedFile(Record([Audio(0, rate, None)], ApartInputs(t, w), c), h, p, q);
    OneSampleApart([p, q], p, t, w, b);
  }

  lemma {:induction false} OneSampleApart(parts: seq<Part>, p: Part, t: int, w: int, b: int)
    requires |parts| == 2 && parts[0] == p && 0 in p.tracks && 0 in parts[1].tracks && t <= w
    requires p.tracks[0] == PartTrack(0, 0, [Tick(t, w - t)]) && parts[1].tracks[0].baseTime == b
    ensures RP.BaseTimeGap(parts, 0, 1, 0) == b - (w - t)
  {
    assert parts[0..1] == [p];
    RT.OnePart(p, 0);
    assert RT.SumDurations(p.tracks[0].samples, 1) == RT.SumDurations(p.tracks[0].samples, 0) + (w - t);
  }

  lemma {:induction false} Conversion(v: int, m: nat, d: int, q: int)
    requires d > 0
    requires if v * m >= 0 then q * d <= v * m < q * d + d else q * d - d < v * m <= q * d
    ensures MultiplyAndDivide(v, m, d) == q
  {
    MultiplyAndDivideExact(v, m, d);
    QuoCharacterized(v * m, d, q);
  }

  lemma {:induction false} ApartByNumbers(rate: nat, t: int, w: nat, s: int, v: nat, e: nat, b: nat)
    requires rate > 0 && t < 0 && s <= v && w - t < UINT32
    requires s * rate - rate < t * SECOND <= s * rate && v * rate <= w * SECOND < v * rate + rate
    requires e * rate <= (w - t) * SECOND < e * rate + rate && b * SECOND <= (v - s) * rate < b * SECOND + SECOND
    ensures AreApart(rate, t, w, s, v, e, b)
  {
    Conversion(t, SECOND, rate, s);
    Conversion(w, SECOND, rate, v);
    Conversion(w - t, SECOND, rate, e);
    Conversion(v - s, rate, SECOND, b);
    Conversion(0, rate, SECOND, 0);
  }

  /** The second tick that PartsFollow allows is real: a recording whose parts lie two ticks closer together than
      the duration of the sample between them. */
  lemma {:induction false} TwoTicksExample(c: Settings, rate: int, t: int, w: int)
    requires c.partDuration <= 49 && rate == 520140419 && t == -13 && w == 13
    ensures ValidInputs([Audio(0, rate, None)], ApartInputs(t, w))
    ensures var files := RP.Recorded([Audio(0, rate, None)], ApartInputs(t, w), c);
            && |files| == 1 && |files[0].parts| == 2 && 0 in files[0].parts[0].tracks && 0 in files[0].parts[1].tracks
            && RP.BaseTimeGap(files[0].parts, 0, 1, 0) == -2
  {
    TheseAreApart(rate, t, w, -24, 24, 49, 24);
    ApartExample(c, rate, t, w, -24, 24, 49, 24);
  }

  lemma {:induction false} TheseAreApart(rate: int, t: int, w: int, s: int, v: int, e: int, b: int)
    requires rate == 520140419 && t == -13 && w == 13 && s == -24 && v == 24 && e == 49 && b == 24
    ensures AreApart(rate, t, w, s, v, e, b)
  {
    ApartByNumbers(rate, t, w, s, v, e, b);
  }
}
