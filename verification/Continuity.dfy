/** A recording is played, and listed, as one: what playback and the list take its files to last compared with what the
    recorder says, and when the next file is near enough. */
module Continuity {
  import opened Options
  import opened Rounding
  import RM = RecorderModel
  import RS = RecorderSafety
  import RR = RecorderRuns
  import RT = RecorderTiming
  import RD = RecorderDurations
  import RB = RecorderStarts
  import RO = RecorderOverlap
  import opened Playback
  import opened PlaybackRuns
  import opened PlaybackGaps
  import opened RecordAndPlay
  import opened EndToEnd
  import opened OnList

  // how long a track of a part is taken to last

  /** A tick of a clock, rounded up. */
  function Tick(track: RM.Track): nat
    requires track.timeScale > 0
  {
    (1_000_000_000 + track.timeScale - 1) / track.timeScale
  }

  /** The longest tick of some tracks. */
  function LongestTick(tracks: seq<RM.Track>): nat
    requires RM.ValidTracks(tracks)
  {
    if tracks == [] then 0
    else RM.Max(LongestTick(tracks[..|tracks| - 1]), Tick(tracks[|tracks| - 1]))
  }

  lemma {:induction false} TickIsWithin(tracks: seq<RM.Track>, i: nat)
    requires RM.ValidTracks(tracks) && i < |tracks|
    ensures Tick(tracks[i]) <= LongestTick(tracks)
    decreases |tracks|
  {
    if i < |tracks| - 1 {
      TickIsWithin(tracks[..|tracks| - 1], i);
    }
  }

  lemma {:induction false} TickLasts(rate: int)
    requires rate > 0
    ensures (1_000_000_000 + rate - 1) / rate * rate >= 1_000_000_000
  {
    var n := 1_000_000_000 + rate - 1;
    assert n == n / rate * rate + n % rate;
  }

  /** No clock has more than a billion ticks a second. */
  predicate AreClocksUsual(tracks: seq<RM.Track>) {
    forall i :: 0 <= i < |tracks| ==> 0 < tracks[i].timeScale <= 1_000_000_000
  }

  lemma {:induction false} QuotientWithin(v: int, rate: int, tick: int)
    requires rate > 0 && tick * rate >= SECOND && -SECOND - 3 * rate < v * rate < 4 * rate
    ensures -tick - 2 <= v <= 3
  {
    assert (-tick - 3) * rate == -(tick * rate) - 3 * rate;
    if v >= 4 {
      ProductOrder(4, v, rate);
    } else if v <= -tick - 3 {
      ProductOrder(v, -tick - 3, rate);
    }
  }

  /** The errors of the conversions, added up; all of these are products. */
  lemma {:induction false} AddErrors(
    x: int, out: int, last: int, a: int, lasts: int, b: int, base: int, start: int, rate: int)
    requires -rate < x - out < rate && -rate < last - a < rate && 0 <= lasts - b < rate
    requires -SECOND - rate < base + start < rate && x == base + last + lasts
    ensures -SECOND - 3 * rate < out - a - b + start < 4 * rate
  {
  }

  lemma {:induction false} SumOfProducts(base: int, t: int, last: int, lasts: int)
    ensures (base + (last - t) + lasts) * SECOND == SECOND * (base - t) + last * SECOND + lasts * SECOND
  {
  }

  lemma {:induction false} ProductOfSum(rate: int, out: int, a: int, b: int, start: int)
    ensures (out - (a + b - start)) * rate == rate * out - rate * a - rate * b + start * rate
  {
  }

  /** The end of a run that was written with this base time, against the end of its last sample. */
  lemma {:induction false} EndError(
    t: int, base: int, last: int, lasts: nat, start: int, rate: nat, tick: int, end: int, out: int)
    requires 0 < rate <= SECOND && tick * rate >= SECOND && IsBase(t, TimestampToDuration(t, rate), base, start, rate)
    requires end == TimestampToDuration(last, rate) + TimestampToDuration(lasts, rate)
    requires out == TimestampToDuration(base + (last - t) + lasts, rate)
    ensures -tick - 2 <= out - (end - start) <= 3
  {
    var a, b := TimestampToDuration(last, rate), TimestampToDuration(lasts, rate);
    BaseTimeError(t, TimestampToDuration(t, rate), base, start, rate);
    MultiplyAndDivideError(base + (last - t) + lasts, SECOND, rate);
    MultiplyAndDivideError(last, SECOND, rate);
    MultiplyAndDivideError(lasts, SECOND, rate);
    SumOfProducts(base, t, last, lasts);
    AddErrors((base + (last - t) + lasts) * SECOND, rate * out, last * SECOND, rate * a, lasts * SECOND, rate * b,
              SECOND * (base - t), start * rate, rate);
    ProductOfSum(rate, out, a, b, start);
    QuotientWithin(out - (end - start), rate, tick);
  }

  function LastOf(pt: RM.PartTrack): RM.Sample
    requires pt.samples != []
  {
    pt.samples[|pt.samples| - 1]
  }

  /** What the run says about its end is at most a tick and two nanoseconds too early and three nanoseconds too late. */
  lemma {:induction false} EndOfRun(pt: RM.PartTrack, track: RM.Track, start: int)
    requires 0 < track.timeScale <= 1_000_000_000 && IsRecordedTrack(pt, track, start)
    requires RT.GapsFit(pt.samples, |pt.samples| - 1)
    ensures -(Tick(track) as int) - 2 <= RunEnd(ToRun(pt), track.timeScale) - (RD.End(track, LastOf(pt)) - start) <= 3
  {
    var n := |pt.samples|;
    RT.DurationsTelescope(pt.samples, n - 1);
    SameDurations(pt, n);
    BaseIsBase(pt.samples[0].dts, start, track.timeScale);
    TickLasts(track.timeScale);
    EndError(pt.samples[0].dts, pt.baseTime, LastOf(pt).dts, LastOf(pt).duration, start, track.timeScale, Tick(track),
             RD.End(track, LastOf(pt)), RunEnd(ToRun(pt), track.timeScale));
  }

  /** The last sample of a track in a part ends last, to within a nanosecond. */
  lemma {:induction false} LastEndsLast(pt: RM.PartTrack, track: RM.Track, k: nat)
    requires track.timeScale > 0 && RR.IsChain(pt.samples) && k < |pt.samples|
    ensures RD.End(track, pt.samples[k]) <= RD.End(track, LastOf(pt)) + 1
  {
    var h := pt.samples;
    if k < |h| - 1 {
      RO.EndOfSample(track, h[k], h[k + 1]);
      RR.ChainIsOrdered(h, k + 1, |h| - 1);
      MultiplyAndDivideMonotone(h[k + 1].dts, LastOf(pt).dts, SECOND, track.timeScale);
      MultiplyAndDivideError(LastOf(pt).duration, SECOND, track.timeScale);
      assert RM.Dts(track, LastOf(pt).duration) >= 0 by {
        MultiplyAndDivideMonotone(0, LastOf(pt).duration, SECOND, track.timeScale);
      }
    }
  }

  // parts and the log

  lemma {:induction false} InPartIsLogged(log: seq<RM.Fate>, i: nat, segment: nat, part: nat, j: nat) returns (k: nat)
    requires j < |RS.InPart(log, i, segment, part)|
    ensures k < |log| && log[k] == RM.Fate(i, RS.InPart(log, i, segment, part)[j], segment, Some(part))
    decreases |log|
  {
    var n := |log| - 1;
    if j < |RS.InPart(log[..n], i, segment, part)| {
      k := InPartIsLogged(log[..n], i, segment, part, j);
    } else {
      k := n;
    }
  }

  lemma {:induction false} LoggedIsInPart(log: seq<RM.Fate>, k: nat, segment: nat, part: nat) returns (j: nat)
    requires k < |log| && log[k].segment == segment && log[k].part == Some(part)
    ensures var h := RS.InPart(log, log[k].track, segment, part);
            j < |h| && h[j] == log[k].sample
    decreases |log|
  {
    var n := |log| - 1;
    if k < n {
      j := LoggedIsInPart(log[..n], k, segment, part);
    } else {
      j := |RS.InPart(log[..n], log[k].track, segment, part)|;
    }
  }

  // files

  /** The gaps in each part of a file fit into 32 bits. */
  predicate GapsFitIn(f: RM.File) {
    forall m :: 0 <= m < |f.parts| ==> forall i :: i in f.parts[m].tracks ==> GapsFitOf(f.parts[m].tracks[i])
  }

  predicate GapsFitOf(pt: RM.PartTrack) {
    pt.samples != [] ==> RT.GapsFit(pt.samples, |pt.samples| - 1)
  }

  predicate HasTrack(f: RM.File, tracks: seq<RM.Track>, m: nat, i: nat) {
    m < |f.parts| && i < |tracks| && i in f.parts[m].tracks
  }

  /** Where a track ends in a part of a file, as playback reads it. */
  function EndIn(f: RM.File, tracks: seq<RM.Track>, m: nat, i: nat): int
    requires RM.ValidTracks(tracks) && HasTrack(f, tracks, m, i)
  {
    RunEnd(ToRun(f.parts[m].tracks[i]), tracks[i].timeScale)
  }

  /** No track of the file ends later, and if the file lasts at all, one ends then, to within these limits. */
  ghost predicate EndsAsWritten(f: RM.File, tracks: seq<RM.Track>)
    requires RM.ValidTracks(tracks)
  {
    && f.duration >= 0
    && (forall m: nat, i: nat :: HasTrack(f, tracks, m, i) ==> EndIn(f, tracks, m, i) <= f.duration + 3)
    && (f.duration == 0 ||
        exists m: nat, i: nat :: HasTrack(f, tracks, m, i) &&
          EndIn(f, tracks, m, i) >= f.duration - LongestTick(tracks) - 3)
  }

  /** What a finished file says, in terms of the log. */
  ghost predicate IsLoggedFile(f: RM.File, log: seq<RM.Fate>, tracks: seq<RM.Track>, n: nat)
    requires RM.ValidTracks(tracks)
  {
    && f.duration == RD.LatestEnd(log, tracks, n, None, f.startDTS) - f.startDTS
    && (forall m: nat, i: nat :: HasTrack(f, tracks, m, i) ==>
          IsRecordedTrack(f.parts[m].tracks[i], tracks[i], f.startDTS) &&
          f.parts[m].tracks[i].samples == RS.InPart(log, i, n, m))
    && (forall k: nat :: k < |log| && RD.IsIn(log[k], tracks, n, None) ==>
          HasTrack(f, tracks, log[k].part.value, log[k].track))
  }

  lemma {:induction false} NoTrackEndsLater(
    f: RM.File, log: seq<RM.Fate>, tracks: seq<RM.Track>, n: nat, m: nat, i: nat)
    requires RM.ValidTracks(tracks) && AreClocksUsual(tracks) && IsLoggedFile(f, log, tracks, n) && GapsFitIn(f)
    requires HasTrack(f, tracks, m, i)
    ensures EndIn(f, tracks, m, i) <= f.duration + 3
  {
    var pt := f.parts[m].tracks[i];
    assert GapsFitOf(pt);
    EndOfRun(pt, tracks[i], f.startDTS);
    var k := InPartIsLogged(log, i, n, m, |pt.samples| - 1);
    RD.LatestEndIsMaximum(log, tracks, n, None, f.startDTS);
    assert RD.IsIn(log[k], tracks, n, None);
  }

  lemma {:induction false} SomeTrackEndsThen(
    f: RM.File, log: seq<RM.Fate>, tracks: seq<RM.Track>, n: nat)
    requires RM.ValidTracks(tracks) && AreClocksUsual(tracks) && IsLoggedFile(f, log, tracks, n) && GapsFitIn(f)
    requires f.duration != 0
    ensures exists m: nat, i: nat ::
            HasTrack(f, tracks, m, i) && EndIn(f, tracks, m, i) >= f.duration - LongestTick(tracks) - 3
  {
    RD.LatestEndIsMaximum(log, tracks, n, None, f.startDTS);
    var e := RD.LatestEnd(log, tracks, n, None, f.startDTS);
    var k: nat :| k < |log| && RD.IsIn(log[k], tracks, n, None) && RD.End(tracks[log[k].track], log[k].sample) == e;
    var m, i := log[k].part.value, log[k].track;
    assert HasTrack(f, tracks, m, i);
    var pt := f.parts[m].tracks[i];
    var j := LoggedIsInPart(log, k, n, m);
    assert GapsFitOf(pt);
    LastEndsLast(pt, tracks[i], j);
    EndOfRun(pt, tracks[i], f.startDTS);
    TickIsWithin(tracks, i);
  }

  lemma {:induction false} LoggedFileEnds(f: RM.File, log: seq<RM.Fate>, tracks: seq<RM.Track>, n: nat)
    requires RM.ValidTracks(tracks) && AreClocksUsual(tracks) && IsLoggedFile(f, log, tracks, n) && GapsFitIn(f)
    ensures EndsAsWritten(f, tracks)
  {
    RD.LatestEndIsMaximum(log, tracks, n, None, f.startDTS);
    forall m: nat, i: nat | HasTrack(f, tracks, m, i) ensures EndIn(f, tracks, m, i) <= f.duration + 3 {
      NoTrackEndsLater(f, log, tracks, n, m, i);
    }
    if f.duration != 0 {
      SomeTrackEndsThen(f, log, tracks, n);
    }
  }

  lemma {:induction false} KeptIsInFile(tracks: seq<RM.Track>, inputs: seq<RR.Input>, c: RM.Settings, n: nat, k: nat)
    requires RR.ValidInputs(tracks, inputs) && n < |RR.Record(tracks, inputs, c).files|
    requires n < |Recorded(tracks, inputs, c)| && k < |RR.Record(tracks, inputs, c).log|
    requires RD.IsIn(RR.Record(tracks, inputs, c).log[k], tracks, n, None)
    ensures var f, x := Recorded(tracks, inputs, c)[n], RR.Record(tracks, inputs, c).log[k];
            HasTrack(f, tracks, x.part.value, x.track)
  {
    RR.RecordingIsRight(tracks, inputs, c);
    var s := RR.Record(tracks, inputs, c);
    var x := s.log[k];
    assert RS.FateIsRight(s, x);
    var m := x.part.value;
    var j := LoggedIsInPart(s.log, k, n, m);
    assert RS.FileIsRight(s, n, c) && Recorded(tracks, inputs, c)[n] == s.files[n];
    assert RS.PartIsRight(s.log, s.tracks, n, s.files[n].startDTS, s.files[n].parts[m], c.maxPartSize);
    assert s.files[n].parts[m].number == m;
  }

  lemma {:induction false} FileIsLogged(tracks: seq<RM.Track>, inputs: seq<RR.Input>, c: RM.Settings, n: nat)
    requires RR.ValidInputs(tracks, inputs) && !RR.Record(tracks, inputs, c).failed
    requires n < |RR.Record(tracks, inputs, c).files|
    ensures n < |Recorded(tracks, inputs, c)|
    ensures Recorded(tracks, inputs, c)[n] == RR.Record(tracks, inputs, c).files[n]
    ensures IsLoggedFile(Recorded(tracks, inputs, c)[n], RR.Record(tracks, inputs, c).log, tracks, n)
  {
    var s := RR.Record(tracks, inputs, c);
    var f := Recorded(tracks, inputs, c)[n];
    RD.RecordingLasts(tracks, inputs, c);
    RR.RecordingIsRight(tracks, inputs, c);
    assert RD.FileLasts(s.log, s.tracks, s.files[n], c) && RS.FileIsRight(s, n, c);
    forall i | 0 <= i < |tracks| ensures s.tracks[i].timeScale == tracks[i].timeScale {
      TracksStay(tracks, inputs, c, i);
    }
    RD.SameEnds(s.log, s.tracks, tracks, n, None, f.startDTS);
    forall m: nat, i: nat | HasTrack(f, tracks, m, i)
      ensures IsRecordedTrack(f.parts[m].tracks[i], tracks[i], f.startDTS)
      ensures f.parts[m].tracks[i].samples == RS.InPart(s.log, i, n, m)
    {
      RecordedTrack(tracks, inputs, c, n, m, i);
      assert RS.PartIsRight(s.log, s.tracks, n, f.startDTS, f.parts[m], c.maxPartSize);
      assert RS.TrackIsRight(s.log, s.tracks[i], i, n, f.startDTS, f.parts[m]);
    }
    forall k: nat | k < |s.log| && RD.IsIn(s.log[k], tracks, n, None)
      ensures HasTrack(f, tracks, s.log[k].part.value, s.log[k].track)
    {
      KeptIsInFile(tracks, inputs, c, n, k);
    }
  }

  // what playback takes a file to last

  lemma {:induction false} RunIsTrack(segment: SegmentFile, f: RM.File, tracks: seq<RM.Track>, m: nat, j: nat)
    returns (i: nat)
    requires RM.ValidTracks(tracks) && HaveDistinctIDs(tracks) && |segment.parts| == |f.parts|
    requires m < |f.parts| && HoldsPart(segment.parts[m], f.parts[m]) && HasIDs(f.parts[m], tracks)
    requires j < |segment.parts[m]|
    ensures HasTrack(f, tracks, m, i) && segment.parts[m][j] == ToRun(f.parts[m].tracks[i])
    ensures FindTrack(ToInit(tracks), segment.parts[m][j].trackID) == Some(i)
  {
    var order :| IsPart(segment.parts[m], f.parts[m], order);
    i := order[j];
    FoundByID(tracks, i);
  }

  lemma {:induction false} TrackIsRun(segment: SegmentFile, f: RM.File, tracks: seq<RM.Track>, m: nat, i: nat)
    returns (j: nat)
    requires RM.ValidTracks(tracks) && HaveDistinctIDs(tracks) && |segment.parts| == |f.parts|
    requires m < |f.parts| && HoldsPart(segment.parts[m], f.parts[m]) && HasIDs(f.parts[m], tracks)
    requires HasTrack(f, tracks, m, i)
    ensures j < |segment.parts[m]| && segment.parts[m][j] == ToRun(f.parts[m].tracks[i])
    ensures FindTrack(ToInit(tracks), segment.parts[m][j].trackID) == Some(i)
  {
    var order :| IsPart(segment.parts[m], f.parts[m], order);
    assert i in order;
    j :| 0 <= j < |order| && order[j] == i;
    FoundByID(tracks, i);
  }

  /** A run without samples beyond the end is played to its end. */
  lemma {:induction false} WholeRun(parts: seq<seq<Run>>, q: Request, m: nat, j: nat)
    requires !AnyIsLate(parts, q) && m < |parts| && j < |parts[m]| && ValidTracks(q.tracks)
    requires FindTrack(q.tracks, parts[m][j].trackID).Some?
    ensures var run, i := parts[m][j], FindTrack(q.tracks, parts[m][j].trackID).value;
            RunElapsed(run, q) == RunEnd(run, q.tracks[i].timeScale)
  {
    var run, i := parts[m][j], FindTrack(q.tracks, parts[m][j].trackID).value;
    assert !PartIsLate(parts[m], q);
    LateSample(run, q);
  }

  /** The segment is a file of a recording. */
  ghost predicate IsFileOf(segment: SegmentFile, f: RM.File, tracks: seq<RM.Track>) {
    && RM.ValidTracks(tracks) && HaveDistinctIDs(tracks) && |segment.parts| == |f.parts|
    && forall m :: 0 <= m < |f.parts| ==> HoldsPart(segment.parts[m], f.parts[m]) && HasIDs(f.parts[m], tracks)
  }

  lemma {:induction false} SomethingReaches(
    segment: SegmentFile, f: RM.File, tracks: seq<RM.Track>, q: Request, m: nat, j: nat, e: int) returns (i: nat)
    requires IsFileOf(segment, f, tracks) && q.tracks == ToInit(tracks) && ValidTracks(q.tracks) &&
             !AnyIsLate(segment.parts, q)
    requires m < |segment.parts| && j < |segment.parts[m]| && Reaches(segment.parts[m][j], q, e)
    ensures HasTrack(f, tracks, m, i) && EndIn(f, tracks, m, i) == e
  {
    i := RunIsTrack(segment, f, tracks, m, j);
    WholeRun(segment.parts, q, m, j);
  }

  lemma {:induction false} TrackEndsBy(
    segment: SegmentFile, f: RM.File, tracks: seq<RM.Track>, q: Request, m: nat, i: nat, e: int)
    requires IsFileOf(segment, f, tracks) && q.tracks == ToInit(tracks) && ValidTracks(q.tracks) &&
             !AnyIsLate(segment.parts, q)
    requires HasTrack(f, tracks, m, i) && forall j: nat :: j < |segment.parts[m]| ==> EndsBy(segment.parts[m][j], q, e)
    ensures EndIn(f, tracks, m, i) <= e
  {
    var j := TrackIsRun(segment, f, tracks, m, i);
    WholeRun(segment.parts, q, m, j);
    assert EndsBy(segment.parts[m][j], q, e);
  }

  /** What playback takes a file to last, if no sample of it is beyond the requested end, is at most a tick and three
      nanoseconds less and three nanoseconds more than the recorder says. */
  lemma {:induction false} ElapsedIsDuration(
    segment: SegmentFile, f: RM.File, tracks: seq<RM.Track>, q: Request, e: int)
    requires IsFileOf(segment, f, tracks) && EndsAsWritten(f, tracks)
    requires q.tracks == ToInit(tracks) && ValidTracks(q.tracks) && !AnyIsLate(segment.parts, q)
    requires var r := MuxParts(Muxed([], 0, false), segment.parts, q.tracks, q.startDTS, q.duration);
             r.Some? && r.value.elapsed == e
    ensures f.duration - LongestTick(tracks) - 3 <= e <= f.duration + 3
  {
    ElapsedIsLatestEnd(Muxed([], 0, false), segment.parts, q);
    if e != 0 {
      var m: nat, j: nat :| m < |segment.parts| && j < |segment.parts[m]| && Reaches(segment.parts[m][j], q, e);
      var i := SomethingReaches(segment, f, tracks, q, m, j, e);
    }
    if f.duration != 0 {
      var m: nat, i: nat :| HasTrack(f, tracks, m, i) && EndIn(f, tracks, m, i) >= f.duration - LongestTick(tracks) - 3;
      TrackEndsBy(segment, f, tracks, q, m, i, e);
    }
  }

  // what the list takes a file to last

  /** The header tells the duration to the millisecond if and only if it fits into 32 bits. */
  lemma {:induction false} HeaderTellsDurationIff(duration: nat)
    ensures HeaderDuration(duration) <= duration
    ensures duration - 1_000_000 < HeaderDuration(duration) <==> duration < 0x1_0000_0000 * 1_000_000
  {
    var ms := duration / 1_000_000;
    assert ms % 0x1_0000_0000 == ms <==> ms < 0x1_0000_0000;
    assert ms >= 0x1_0000_0000 ==> ms % 0x1_0000_0000 < ms;
  }

  predicate RunEndsAt(runs: seq<Run>, tracks: seq<InitTrack>, j: nat, e: int)
    requires ValidTracks(tracks)
  {
    && j < |runs| && FindTrack(tracks, runs[j].trackID).Some?
    && RunEnd(runs[j], tracks[FindTrack(tracks, runs[j].trackID).value].timeScale) == e
  }

  lemma {:induction false} LatestRunEndIsAnEnd(runs: seq<Run>, tracks: seq<InitTrack>, e: int)
    requires ValidTracks(tracks) && LatestRunEnd(runs, tracks) == Some(e)
    ensures e >= 0 && (e == 0 || exists j: nat :: RunEndsAt(runs, tracks, j, e))
    decreases |runs|
  {
    if runs != [] {
      var n: nat := |runs| - 1;
      var rest := LatestRunEnd(runs[..n], tracks).value;
      LatestRunEndIsAnEnd(runs[..n], tracks, rest);
      if e == rest && e != 0 {
        var j: nat :| RunEndsAt(runs[..n], tracks, j, e);
        assert RunEndsAt(runs, tracks, j, e);
      } else if e != 0 {
        assert RunEndsAt(runs, tracks, n, e);
      }
    }
  }

  lemma {:induction false} RunEndsInFile(
    segment: SegmentFile, f: RM.File, tracks: seq<RM.Track>, m: nat, j: nat, e: int)
    requires IsFileOf(segment, f, tracks) && m < |segment.parts| && RunEndsAt(segment.parts[m], ToInit(tracks), j, e)
    ensures exists i: nat :: HasTrack(f, tracks, m, i) && EndIn(f, tracks, m, i) == e
  {
    var i := RunIsTrack(segment, f, tracks, m, j);
    assert HasTrack(f, tracks, m, i) && EndIn(f, tracks, m, i) == e;
  }

  /** The last part of a file does not end later than the file, to within three nanoseconds. */
  lemma {:induction false} LastPartEndsBy(segment: SegmentFile, f: RM.File, tracks: seq<RM.Track>, listed: int)
    requires IsFileOf(segment, f, tracks) && EndsAsWritten(f, tracks) && segment.parts != []
    requires LatestRunEnd(segment.parts[|segment.parts| - 1], ToInit(tracks)) == Some(listed)
    ensures 0 <= listed <= f.duration + 3
  {
    var m: nat := |segment.parts| - 1;
    LatestRunEndIsAnEnd(segment.parts[m], ToInit(tracks), listed);
    if j: nat :| RunEndsAt(segment.parts[m], ToInit(tracks), j, listed) {
      RunEndsInFile(segment, f, tracks, m, j, listed);
    }
  }

  /** What the list takes a file to last is less than a millisecond less and at most three nanoseconds more than the
      recorder says, if the header tells that to the millisecond. */
  lemma {:induction false} ListedIsDuration(
    segment: SegmentFile, f: RM.File, tracks: seq<RM.Track>, header: nat, listed: int)
    requires IsFileOf(segment, f, tracks) && EndsAsWritten(f, tracks)
    requires segment.init.tracks == ToInit(tracks) && ValidTracks(segment.init.tracks)
    requires f.duration - 1_000_000 < header <= f.duration && ListedDuration(segment, header) == Some(listed)
    ensures -1_000_000 < listed - f.duration <= 3
  {
    if header == 0 {
      LastPartEndsBy(segment, f, tracks, listed);
    }
  }

  // sessions

  lemma {:induction false} SessionIsAlike(p: Session, inputs: seq<RR.Input>, c: RM.Settings, first: nat)
    requires p.HoldsFiles() && IsOf(p, inputs, c, first)
    ensures AreAlike(p.segments) && p.segments[0].init.tracks == ToInit(p.tracks)
  {
    assert IsFile(p.segments[0], p.files[0], p.tracks, p.streamID);
    forall s | 0 <= s < |p.segments|
      ensures HasKnownRuns(p.segments[s], p.segments[0].init.tracks)
      ensures p.segments[s].init.mtxi.Some? == p.segments[0].init.mtxi.Some?
    {
      FileIsKnown(p, inputs, c, first, s);
      assert IsFile(p.segments[s], p.files[s], p.tracks, p.streamID);
    }
  }

  lemma {:induction false} SegmentsAreConsecutive(
    p: Session, inputs: seq<RR.Input>, c: RM.Settings, first: nat, s: nat)
    requires p.HoldsFiles() && IsOf(p, inputs, c, first) && 0 < s < |p.segments|
    ensures AreConsecutive(p.segments[s - 1].init, p.segments[s].init)
  {
    assert IsFile(p.segments[s - 1], p.files[s - 1], p.tracks, p.streamID);
    assert IsFile(p.segments[s], p.files[s], p.tracks, p.streamID);
    RecordedSegmentsAreConsecutive(p.tracks, inputs, c, p.streamID, first + s - 1, first + s);
  }

  /** By the names of the files, the segment after segment s begins within a second of where playing that has ended. */
  predicate GoesOn(p: Session, s: nat)
    requires AreAlike(p.segments) && s + 1 < |p.segments|
  {
    IsWithinASecond(p.segments[s].start + LastsFor(p.segments, s, p.start, p.duration), p.segments[s + 1].start)
  }

  /** A file of a recording is played if and only if after each one before it the next one begins within a second of
      where playing it has ended. */
  lemma {:induction false} FileIsPlayedIff(p: Session, inputs: seq<RR.Input>, c: RM.Settings, first: nat, k: nat)
    requires p.HoldsFiles() && IsOf(p, inputs, c, first) && k < |p.segments|
    ensures p.Valid() && AreAlike(p.segments)
    ensures k < p.Result().played <==> forall s: nat :: s < k ==> GoesOn(p, s)
  {
    RecordingsPlay(p, inputs, c, first);
    SessionIsAlike(p, inputs, c, first);
    PlaybackGaps.PlayedIff(p.segments, |p.segments|, p.start, p.duration, k);
    forall s: nat | s < k ensures JoinsOn(p.segments, s, p.start, p.duration) <==> GoesOn(p, s) {
      SegmentsAreConsecutive(p, inputs, c, first, s + 1);
    }
  }

  /** What the list knows of the segments. */
  predicate AreParsed(p: Session, parsed: seq<Parsed>) {
    && |parsed| == |p.segments|
    && forall s :: 0 <= s < |parsed| ==>
       parsed[s].init == p.segments[s].init && parsed[s].start == p.segments[s].start
  }

  predicate IsListedInTime(parsed: seq<Parsed>, s: nat)
    requires 0 < s < |parsed|
  {
    IsWithinASecond(parsed[s - 1].start + parsed[s - 1].duration, parsed[s].start)
  }

  /** The files of a recording are listed as one entry, from the start of the first one to the end of the last one, if
      and only if each begins within a second of the end of the one before it. */
  lemma {:induction false} FilesAreOneEntryIff(
    p: Session, inputs: seq<RR.Input>, c: RM.Settings, first: nat, parsed: seq<Parsed>, out: seq<ListEntry>)
    requires p.HoldsFiles() && IsOf(p, inputs, c, first) && AreParsed(p, parsed) && AreEntries(parsed, out)
    ensures |out| == 1 <==> forall s: nat :: 0 < s < |parsed| ==> IsListedInTime(parsed, s)
    ensures |out| == 1 ==>
              && out[0].start == p.segments[0].start
              && out[0].start + out[0].duration == parsed[|parsed| - 1].start + parsed[|parsed| - 1].duration
  {
    OneEntryIff(parsed, out);
    forall s: nat | 0 < s < |parsed| ensures IsListedWith(parsed, s) <==> IsListedInTime(parsed, s) {
      SegmentsAreConsecutive(p, inputs, c, first, s);
    }
  }

  // clocks that agree

  /** The wall clock of the samples is their time stamp and an offset, to within an error. */
  predicate HaveClocksWithin(tracks: seq<RM.Track>, inputs: seq<RR.Input>, offset: int, error: int)
    requires RM.ValidTracks(tracks)
  {
    forall i: nat :: i < |tracks| ==> AreClocksWithin(tracks[i], RR.Raised(RR.Inputs(inputs, i)), offset, error)
  }

  predicate AreClocksWithin(track: RM.Track, samples: seq<RM.Sample>, offset: int, error: int)
    requires track.timeScale > 0
  {
    forall k: nat :: k < |samples| ==>
      -error <= samples[k].ntp - RM.Dts(track, samples[k].dts) - offset <= error
  }

  lemma {:induction false} SamePlain(a: seq<RM.Sample>, b: seq<RM.Sample>, k: nat)
    requires RR.Plain(a) == RR.Plain(b) && k < |a|
    ensures k < |b| && a[k].dts == b[k].dts && a[k].ntp == b[k].ntp
  {
    assert |RR.Plain(a)| == |RR.Plain(b)|;
    assert RR.Plain(a)[k] == RR.WithoutDuration(a[k]) && RR.Plain(b)[k] == RR.WithoutDuration(b[k]);
  }

  lemma {:induction false} StartIsOnClock(
    tracks: seq<RM.Track>, inputs: seq<RR.Input>, c: RM.Settings, offset: int, error: int, dts: int, ntp: int)
    requires RR.ValidInputs(tracks, inputs) && RR.Fresh(tracks) && !RR.Record(tracks, inputs, c).failed
    requires HaveClocksWithin(tracks, inputs, offset, error) && RB.IsOfSample(RR.Record(tracks, inputs, c), dts, ntp)
    ensures -error <= ntp - dts - offset <= error
  {
    var s := RR.Record(tracks, inputs, c);
    var j: nat, k: nat :| RB.IsSampleAt(s, j, k, dts, ntp);
    TracksStay(tracks, inputs, c, j);
    RR.RecordingHistory(tracks, inputs, c, j);
    SamePlain(RR.History(s, j), RR.Raised(RR.Inputs(inputs, j)), k);
    assert AreClocksWithin(tracks[j], RR.Raised(RR.Inputs(inputs, j)), offset, error);
  }

  /** A recording whose tracks stay within `spread` of each other when a file is completed and whose clocks agree. */
  ghost predicate IsRegular(
    tracks: seq<RM.Track>, inputs: seq<RR.Input>, c: RM.Settings, spread: int, offset: int, error: int)
  {
    && RR.ValidInputs(tracks, inputs) && RR.Fresh(tracks) && !RR.Record(tracks, inputs, c).failed
    && 0 <= spread <= 1_000_000_000 && RO.IsSteady(tracks, inputs, c, spread)
    && HaveClocksWithin(tracks, inputs, offset, error)
  }

  lemma {:induction false} FileIsOnClock(
    tracks: seq<RM.Track>, inputs: seq<RR.Input>, c: RM.Settings, spread: int, offset: int, error: int, n: nat)
    requires IsRegular(tracks, inputs, c, spread, offset, error) && n < |Recorded(tracks, inputs, c)|
    ensures var f := Recorded(tracks, inputs, c)[n];
            -error <= f.startNTP - f.startDTS - offset <= error
  {
    var s, f := RR.Record(tracks, inputs, c), Recorded(tracks, inputs, c)[n];
    RO.SteadyFilesStartAtSamples(tracks, inputs, c, spread);
    assert n < |s.files| ==> RB.IsStart(s, s.files[n].startDTS, s.files[n].startNTP, false);
    StartIsOnClock(tracks, inputs, c, offset, error, f.startDTS, f.startNTP);
  }

  lemma {:induction false} FileFollows(
    tracks: seq<RM.Track>, inputs: seq<RR.Input>, c: RM.Settings, spread: int, offset: int, error: int, n: nat)
    requires IsRegular(tracks, inputs, c, spread, offset, error) && n + 1 < |Recorded(tracks, inputs, c)|
    ensures n < |RR.Record(tracks, inputs, c).files|
    ensures var files := Recorded(tracks, inputs, c);
            -spread - 1 <= files[n + 1].startDTS - (files[n].startDTS + files[n].duration) <= 1
  {
    var s := RR.Record(tracks, inputs, c);
    RO.SteadyFilesFollow(tracks, inputs, c, spread);
    assert RO.GapIsWithin(s, n, -spread - 1, Some(1));
  }

  /** By the wall clock, a file begins when the previous one has ended. */
  predicate FollowsOnClock(a: RM.File, b: RM.File, spread: int, error: int) {
    -spread - 2 * error - 1 <= b.startNTP - (a.startNTP + a.duration) <= 2 * error + 1
  }


  lemma {:induction false} FileFollowsOnClock(
    tracks: seq<RM.Track>, inputs: seq<RR.Input>, c: RM.Settings, spread: int, offset: int, error: int, n: nat)
    requires IsRegular(tracks, inputs, c, spread, offset, error) && n + 1 < |Recorded(tracks, inputs, c)|
    ensures n < |RR.Record(tracks, inputs, c).files|
    ensures FollowsOnClock(Recorded(tracks, inputs, c)[n], Recorded(tracks, inputs, c)[n + 1], spread, error)
  {
    FileFollows(tracks, inputs, c, spread, offset, error, n);
    FileIsOnClock(tracks, inputs, c, spread, offset, error, n);
    FileIsOnClock(tracks, inputs, c, spread, offset, error, n + 1);
  }

  /** The names of files tell their starts, rounded down to a unit. */
  predicate NamesTellStarts(p: Session, unit: int) {
    && |p.segments| <= |p.files|
    && forall s :: 0 <= s < |p.segments| ==>
       p.files[s].startNTP - unit < p.segments[s].start <= p.files[s].startNTP
  }

  /** The gaps of the file of segment s fit into 32 bits, and no sample of it is beyond the requested end. */
  ghost predicate IsPlayedWhole(p: Session, s: nat) {
    && AreAlike(p.segments) && s < |p.segments| <= |p.files| && GapsFitIn(p.files[s])
    && !AnyIsLate(p.segments[s].parts, RequestOf(p.segments, s, p.start, p.duration))
  }

  lemma {:induction false} SegmentIsFileOf(p: Session, inputs: seq<RR.Input>, c: RM.Settings, first: nat, s: nat)
    requires p.HoldsFiles() && IsOf(p, inputs, c, first) && s < |p.segments|
    ensures IsFileOf(p.segments[s], p.files[s], p.tracks) && p.segments[s].init.tracks == ToInit(p.tracks)
  {
    assert IsFile(p.segments[s], p.files[s], p.tracks, p.streamID);
    forall m | 0 <= m < |p.files[s].parts| ensures HasIDs(p.files[s].parts[m], p.tracks) {
      FileIsRecorded(p, inputs, c, first, s, m);
    }
  }

  lemma {:induction false} SegmentEndsAsWritten(
    p: Session, inputs: seq<RR.Input>, c: RM.Settings, first: nat, s: nat)
    requires p.HoldsFiles() && IsOf(p, inputs, c, first) && s < |p.segments| && AreClocksUsual(p.tracks)
    requires !RR.Record(p.tracks, inputs, c).failed && first + s < |RR.Record(p.tracks, inputs, c).files|
    requires GapsFitIn(p.files[s])
    ensures EndsAsWritten(p.files[s], p.tracks)
  {
    FileIsLogged(p.tracks, inputs, c, first + s);
    LoggedFileEnds(p.files[s], RR.Record(p.tracks, inputs, c).log, p.tracks, first + s);
  }

  /** What playback takes a file to last is what the recorder says, to within a tick and three nanoseconds. */
  lemma {:induction false} SegmentLasts(
    p: Session, inputs: seq<RR.Input>, c: RM.Settings, first: nat, s: nat)
    requires p.HoldsFiles() && IsOf(p, inputs, c, first) && AreClocksUsual(p.tracks)
    requires !RR.Record(p.tracks, inputs, c).failed && first + s < |RR.Record(p.tracks, inputs, c).files|
    requires IsPlayedWhole(p, s)
    ensures p.files[s].duration - LongestTick(p.tracks) - 3 <= LastsFor(p.segments, s, p.start, p.duration)
            <= p.files[s].duration + 3
  {
    SessionIsAlike(p, inputs, c, first);
    SegmentEndsAsWritten(p, inputs, c, first, s);
    SegmentIsFileOf(p, inputs, c, first, s);
    var q := RequestOf(p.segments, s, p.start, p.duration);
    KnownPartsPlay(Muxed([], 0, false), p.segments[s].parts, q.tracks, q.startDTS, q.duration);
    ElapsedIsDuration(p.segments[s], p.files[s], p.tracks, q, LastsFor(p.segments, s, p.start, p.duration));
  }

  /** Where the next file starts by name, if this is when it starts by the wall clock and that is how long the previous
      file is taken to last. */
  lemma {:induction false} NamesAreNear(
    a: RM.File, b: RM.File, start: int, next: int, lasts: int, spread: int, error: int, unit: int, short: int)
    requires FollowsOnClock(a, b, spread, error)
    requires a.startNTP - unit < start <= a.startNTP && b.startNTP - unit < next <= b.startNTP
    requires -short - 3 <= lasts - a.duration <= 3
    requires 2 * error + unit + RM.Max(spread, short) + 3 <= 1_000_000_000
    ensures IsWithinASecond(start + lasts, next)
  {
  }

  lemma {:induction false} SessionFollowsOnClock(
    p: Session, inputs: seq<RR.Input>, c: RM.Settings, first: nat, s: nat, spread: int, offset: int, error: int)
    requires IsOf(p, inputs, c, first) && s + 1 < |p.files| && IsRegular(p.tracks, inputs, c, spread, offset, error)
    ensures first + s < |RR.Record(p.tracks, inputs, c).files|
    ensures FollowsOnClock(p.files[s], p.files[s + 1], spread, error)
  {
    FileFollowsOnClock(p.tracks, inputs, c, spread, offset, error, first + s);
  }

  lemma {:induction false} BeginsByName(p: Session, s: nat, spread: int, error: int, unit: int)
    requires AreAlike(p.segments) && RM.ValidTracks(p.tracks) && s + 1 < |p.segments| && NamesTellStarts(p, unit)
    requires FollowsOnClock(p.files[s], p.files[s + 1], spread, error)
    requires p.files[s].duration - LongestTick(p.tracks) - 3 <= LastsFor(p.segments, s, p.start, p.duration)
             <= p.files[s].duration + 3
    requires 2 * error + unit + RM.Max(spread, LongestTick(p.tracks)) + 3 <= 1_000_000_000
    ensures GoesOn(p, s)
  {
    NamesAreNear(p.files[s], p.files[s + 1], p.segments[s].start, p.segments[s + 1].start,
                 LastsFor(p.segments, s, p.start, p.duration), spread, error, unit,
                 LongestTick(p.tracks));
  }

  /** The files of a recording whose tracks and clocks agree to within a second, rounding included. */
  ghost predicate IsRegularSession(
    p: Session, inputs: seq<RR.Input>, c: RM.Settings, first: nat, spread: int, offset: int, error: int, unit: int)
  {
    && p.HoldsFiles() && IsOf(p, inputs, c, first) && IsRegular(p.tracks, inputs, c, spread, offset, error)
    && NamesTellStarts(p, unit) && AreClocksUsual(p.tracks)
    && 2 * error + unit + RM.Max(spread, LongestTick(p.tracks)) + 3 <= 1_000_000_000
  }

  lemma {:induction false} SegmentGoesOn(
    p: Session, inputs: seq<RR.Input>, c: RM.Settings, first: nat, s: nat, spread: int, offset: int, error: int,
    unit: int)
    requires IsRegularSession(p, inputs, c, first, spread, offset, error, unit)
    requires s + 1 < |p.segments| && IsPlayedWhole(p, s)
    ensures GoesOn(p, s)
  {
    SessionFollowsOnClock(p, inputs, c, first, s, spread, offset, error);
    SegmentLasts(p, inputs, c, first, s);
    BeginsByName(p, s, spread, error, unit);
  }

  /** The first k segments are played whole. */
  ghost predicate ArePlayedWhole(p: Session, k: nat) {
    forall s: nat :: s < k ==> IsPlayedWhole(p, s)
  }

  /** A recording whose tracks and clocks agree is played on from file to file for as long as it is requested. */
  lemma {:induction false} RegularRecordingsPlayOn(
    p: Session, inputs: seq<RR.Input>, c: RM.Settings, first: nat, k: nat, spread: int, offset: int, error: int,
    unit: int)
    requires IsRegularSession(p, inputs, c, first, spread, offset, error, unit)
    requires k < |p.segments| && ArePlayedWhole(p, k)
    ensures p.Valid() && k < p.Result().played
  {
    FileIsPlayedIff(p, inputs, c, first, k);
    forall s: nat | s < k ensures GoesOn(p, s) {
      SegmentGoesOn(p, inputs, c, first, s, spread, offset, error, unit);
    }
  }

  /** The list has the duration of the segment from its header or from its last part. */
  predicate IsListedDuration(p: Session, parsed: seq<Parsed>, s: nat) {
    && AreParsed(p, parsed) && s < |parsed| && |p.segments| <= |p.files| && ValidTracks(p.segments[s].init.tracks)
    && 0 <= p.files[s].duration < 0x1_0000_0000 * 1_000_000
    && ListedDuration(p.segments[s], HeaderDuration(p.files[s].duration)) == Some(parsed[s].duration)
  }

  lemma {:induction false} ListedByName(
    p: Session, s: nat, spread: int, error: int, unit: int, parsed: seq<Parsed>)
    requires AreParsed(p, parsed) && s + 1 < |parsed| && NamesTellStarts(p, unit)
    requires FollowsOnClock(p.files[s], p.files[s + 1], spread, error)
    requires -1_000_000 < parsed[s].duration - p.files[s].duration <= 3
    requires 2 * error + unit + RM.Max(spread, 1_000_000) + 3 <= 1_000_000_000
    ensures IsListedInTime(parsed, s + 1)
  {
    NamesAreNear(p.files[s], p.files[s + 1], parsed[s].start, parsed[s + 1].start, parsed[s].duration, spread, error,
                 unit, 1_000_000);
  }

  lemma {:induction false} NextIsListedInTime(
    p: Session, inputs: seq<RR.Input>, c: RM.Settings, first: nat, s: nat, spread: int, offset: int, error: int,
    unit: int, parsed: seq<Parsed>)
    requires p.HoldsFiles() && IsOf(p, inputs, c, first) && AreParsed(p, parsed) && s + 1 < |parsed|
    requires IsListedDuration(p, parsed, s) && GapsFitIn(p.files[s]) && AreClocksUsual(p.tracks)
    requires IsRegular(p.tracks, inputs, c, spread, offset, error) && NamesTellStarts(p, unit)
    requires 2 * error + unit + RM.Max(spread, 1_000_000) + 3 <= 1_000_000_000
    ensures IsListedInTime(parsed, s + 1)
  {
    SessionFollowsOnClock(p, inputs, c, first, s, spread, offset, error);
    SegmentEndsAsWritten(p, inputs, c, first, s);
    SegmentIsFileOf(p, inputs, c, first, s);
    HeaderTellsDurationIff(p.files[s].duration);
    ListedIsDuration(p.segments[s], p.files[s], p.tracks, HeaderDuration(p.files[s].duration), parsed[s].duration);
    ListedByName(p, s, spread, error, unit, parsed);
  }

  /** It is also listed as one entry. */
  lemma {:induction false} RegularRecordingsAreOneEntry(
    p: Session, inputs: seq<RR.Input>, c: RM.Settings, first: nat, spread: int, offset: int, error: int,
    unit: int, parsed: seq<Parsed>, out: seq<ListEntry>)
    requires p.HoldsFiles() && IsOf(p, inputs, c, first) && AreParsed(p, parsed) && AreEntries(parsed, out)
    requires forall s: nat :: s < |parsed| - 1 ==> IsListedDuration(p, parsed, s) && GapsFitIn(p.files[s])
    requires IsRegular(p.tracks, inputs, c, spread, offset, error) && NamesTellStarts(p, unit)
    requires AreClocksUsual(p.tracks) && 2 * error + unit + RM.Max(spread, 1_000_000) + 3 <= 1_000_000_000
    ensures |out| == 1
    ensures out[0].start == p.segments[0].start
    ensures out[0].start + out[0].duration == parsed[|parsed| - 1].start + parsed[|parsed| - 1].duration
  {
    FilesAreOneEntryIff(p, inputs, c, first, parsed, out);
    forall s: nat | 0 < s < |parsed| ensures IsListedInTime(parsed, s) {
      NextIsListedInTime(p, inputs, c, first, s - 1, spread, offset, error, unit, parsed);
    }
  }
}
