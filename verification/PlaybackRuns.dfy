/** What a muxer is told when segments are played: for each track, exactly the samples of the played parts
    that lie before the requested end, in order. */
module PlaybackRuns {
  import opened Options
  import opened Sequences
  import opened Rounding
  import opened MuxerModel
  import opened MuxerRuns
  import opened Playback

  /** The first n samples of a run, as a muxer gets them. */
  function FirstItems(run: Run, start: int, n: nat): (r: seq<Item>)
    requires n <= |run.entries|
    ensures |r| == n && forall k :: 0 <= k < n ==> r[k] == ItemAt(run, start, k)
  {
    if n == 0 then [] else FirstItems(run, start, n - 1) + [ItemAt(run, start, n - 1)]
  }

  /** The samples of a run that are played: those before the limit. */
  function RunItems(run: Run, start: int, limit: int): seq<Item> {
    FirstItems(run, start, PlayedFrom(run, start, limit, 0))
  }

  /** The request, and how the tracks of the first segment translate it into ticks. */
  datatype Request = Request(tracks: seq<InitTrack>, startDTS: int, duration: int) {
    function Start(i: nat): int
      requires i < |tracks|
    {
      DurationGoToMp4(startDTS, tracks[i].timeScale)
    }

    function Limit(i: nat): int
      requires i < |tracks|
    {
      DurationGoToMp4(duration, tracks[i].timeScale)
    }
  }

  /** What one run contributes to track i. */
  function Contribution(run: Run, q: Request, i: nat): seq<Item>
    requires i < |q.tracks|
  {
    if FindTrack(q.tracks, run.trackID) == Some(i) then RunItems(run, q.Start(i), q.Limit(i)) else []
  }

  /** The samples that a part contributes to track i. */
  function PartItems(runs: seq<Run>, q: Request, i: nat): seq<Item>
    requires i < |q.tracks|
  {
    if runs == [] then []
    else
      var run := runs[|runs| - 1];
      PartItems(runs[..|runs| - 1], q, i) + Contribution(run, q, i)
  }

  function PartsItems(parts: seq<seq<Run>>, q: Request, i: nat): seq<Item>
    requires i < |q.tracks|
  {
    if parts == [] then [] else PartsItems(parts[..|parts| - 1], q, i) + PartItems(parts[|parts| - 1], q, i)
  }

  /** The run has a sample that is not before the requested end. */
  predicate HasLateSample(run: Run, q: Request) {
    var found := FindTrack(q.tracks, run.trackID);
    found.Some? && exists k: nat :: k < |run.entries| && PlayDTS(run, q.Start(found.value), k) >= q.Limit(found.value)
  }

  predicate PartIsLate(runs: seq<Run>, q: Request) {
    exists j: nat :: j < |runs| && HasLateSample(runs[j], q)
  }

  predicate AnyIsLate(parts: seq<seq<Run>>, q: Request) {
    exists n: nat :: n < |parts| && PartIsLate(parts[n], q)
  }

  /** How many parts are played: all up to the first one with a sample beyond the end. */
  function PlayedParts(parts: seq<seq<Run>>, q: Request): (n: nat)
    ensures n <= |parts|
    ensures !AnyIsLate(parts, q) ==> n == |parts|
  {
    if parts == [] then 0
    else if AnyIsLate(parts[..|parts| - 1], q) then PlayedParts(parts[..|parts| - 1], q)
    else |parts|
  }

  lemma {:induction false} OneMoreWrite(calls: seq<Call>, run: Run, start: int, n: nat)
    requires 0 < n <= |run.entries|
    ensures calls + Writes(run, start, n) == (calls + Writes(run, start, n - 1)) +
            [WriteSample(ItemAt(run, start, n - 1))]
  {
  }

  /** Writing the first n samples of a run does not change the track. */
  lemma {:induction false} WritesAreValid(calls: seq<Call>, run: Run, start: int, n: nat, tracks: nat)
    requires n <= |run.entries| && Current(calls).Some? && ValidCalls(calls, tracks)
    ensures Current(calls + Writes(run, start, n)) == Current(calls) &&
            ValidCalls(calls + Writes(run, start, n), tracks)
    decreases n
  {
    if n == 0 {
      assert calls + Writes(run, start, 0) == calls;
    } else {
      WritesAreValid(calls, run, start, n - 1, tracks);
      OneMoreWrite(calls, run, start, n);
      CallsSnoc(calls + Writes(run, start, n - 1), WriteSample(ItemAt(run, start, n - 1)), tracks);
    }
  }

  lemma {:induction false} WritesHistory(calls: seq<Call>, run: Run, start: int, n: nat, tracks: nat, i: nat)
    requires n <= |run.entries| && Current(calls).Some? && ValidCalls(calls, tracks)
    ensures History(calls + Writes(run, start, n), i) ==
            if Current(calls) == Some(i) then History(calls, i) + FirstItems(run, start, n) else History(calls, i)
    decreases n
  {
    if n == 0 {
      assert calls + Writes(run, start, 0) == calls;
      assert History(calls, i) + FirstItems(run, start, 0) == History(calls, i);
    } else {
      WritesHistory(calls, run, start, n - 1, tracks, i);
      WritesAreValid(calls, run, start, n - 1, tracks);
      OneMoreWrite(calls, run, start, n);
      var x := ItemAt(run, start, n - 1);
      HistorySnoc(calls + Writes(run, start, n - 1), WriteSample(x), i);
      Regroup(History(calls, i), FirstItems(run, start, n - 1), [x]);
    }
  }

  /** Announcing a track, writing n samples and announcing the end. */
  lemma {:induction false} RunCalls(
    calls: seq<Call>, j: nat, run: Run, start: int, n: nat, end: int, tracks: nat, i: nat)
    requires n <= |run.entries| && ValidCalls(calls, tracks) && j < tracks
    ensures var r := calls + [SetTrack(j)] + Writes(run, start, n) + [WriteFinalDTS(end)];
            && ValidCalls(r, tracks)
            && History(r, i) == if i == j then History(calls, i) + FirstItems(run, start, n) else History(calls, i)
  {
    var announced := calls + [SetTrack(j)];
    CallsSnoc(calls, SetTrack(j), tracks);
    HistorySnoc(calls, SetTrack(j), i);
    WritesAreValid(announced, run, start, n, tracks);
    WritesHistory(announced, run, start, n, tracks, i);
    CallsSnoc(announced + Writes(run, start, n), WriteFinalDTS(end), tracks);
    HistorySnoc(announced + Writes(run, start, n), WriteFinalDTS(end), i);
  }

  lemma {:induction false} RunHistory(m: Muxed, run: Run, q: Request, i: nat)
    requires ValidTracks(q.tracks) && i < |q.tracks| && ValidCalls(m.calls, |q.tracks|)
    requires MuxRun(m, run, q.tracks, q.startDTS, q.duration).Some?
    ensures var r := MuxRun(m, run, q.tracks, q.startDTS, q.duration).value;
            && ValidCalls(r.calls, |q.tracks|)
            && History(r.calls, i) == History(m.calls, i) + Contribution(run, q, i)
  {
    var j := FindTrack(q.tracks, run.trackID).value;
    var n := PlayedFrom(run, q.Start(j), q.Limit(j), 0);
    RunCalls(m.calls, j, run, q.Start(j), n, PlayDTS(run, q.Start(j), n), |q.tracks|, i);
    assert History(m.calls, i) + [] == History(m.calls, i);
  }

  lemma {:induction false} PartHistory(m: Muxed, runs: seq<Run>, q: Request, i: nat)
    requires ValidTracks(q.tracks) && i < |q.tracks| && ValidCalls(m.calls, |q.tracks|)
    requires MuxPart(m, runs, q.tracks, q.startDTS, q.duration).Some?
    ensures var r := MuxPart(m, runs, q.tracks, q.startDTS, q.duration).value;
            && ValidCalls(r.calls, |q.tracks|)
            && History(r.calls, i) == History(m.calls, i) + PartItems(runs, q, i)
    decreases |runs|
  {
    if runs != [] {
      var front, run := runs[..|runs| - 1], runs[|runs| - 1];
      PartHistory(m, front, q, i);
      RunHistory(MuxPart(m, front, q.tracks, q.startDTS, q.duration).value, run, q, i);
      Regroup(History(m.calls, i), PartItems(front, q, i), Contribution(run, q, i));
    }
  }

  lemma {:induction false} LateSample(run: Run, q: Request)
    requires FindTrack(q.tracks, run.trackID).Some?
    ensures var i := FindTrack(q.tracks, run.trackID).value;
            HasLateSample(run, q) <==> PlayedFrom(run, q.Start(i), q.Limit(i), 0) < |run.entries|
  {
    var i := FindTrack(q.tracks, run.trackID).value;
    var n := PlayedFrom(run, q.Start(i), q.Limit(i), 0);
    if n < |run.entries| {
      assert PlayDTS(run, q.Start(i), n) >= q.Limit(i);
    }
  }

  /** Playing stops at a part if and only if that part has a sample beyond the end on some track. */
  lemma {:induction false} PartStopsIff(m: Muxed, runs: seq<Run>, q: Request)
    requires ValidTracks(q.tracks) && MuxPart(m, runs, q.tracks, q.startDTS, q.duration).Some?
    ensures MuxPart(m, runs, q.tracks, q.startDTS, q.duration).value.stop <==> m.stop || PartIsLate(runs, q)
    decreases |runs|
  {
    if runs != [] {
      var n: nat := |runs| - 1;
      PartStopsIff(m, runs[..n], q);
      LateSample(runs[n], q);
      PartIsLateSnoc(runs, q);
    }
  }

  lemma {:induction false} PartIsLateSnoc(runs: seq<Run>, q: Request)
    requires runs != []
    ensures PartIsLate(runs, q) <==> PartIsLate(runs[..|runs| - 1], q) || HasLateSample(runs[|runs| - 1], q)
  {
    var n: nat := |runs| - 1;
    assert forall j: nat :: j < n ==> runs[..n][j] == runs[j];
  }

  lemma {:induction false} StopsIff(m: Muxed, parts: seq<seq<Run>>, q: Request)
    requires ValidTracks(q.tracks) && !m.stop && MuxParts(m, parts, q.tracks, q.startDTS, q.duration).Some?
    ensures MuxParts(m, parts, q.tracks, q.startDTS, q.duration).value.stop <==> AnyIsLate(parts, q)
    decreases |parts|
  {
    if parts != [] {
      var n: nat := |parts| - 1;
      StopsIff(m, parts[..n], q);
      var r := MuxParts(m, parts[..n], q.tracks, q.startDTS, q.duration).value;
      if !r.stop {
        PartStopsIff(r, parts[n], q);
      }
      assert AnyIsLate(parts, q) <==> AnyIsLate(parts[..n], q) || PartIsLate(parts[n], q) by {
        assert forall j: nat :: j < n ==> parts[..n][j] == parts[j];
      }
    }
  }

  /** A muxer is told, for each track, exactly the samples of the played parts that lie before the end. */
  lemma {:induction false} PartsHistory(m: Muxed, parts: seq<seq<Run>>, q: Request, i: nat)
    requires ValidTracks(q.tracks) && i < |q.tracks| && ValidCalls(m.calls, |q.tracks|) && !m.stop
    requires MuxParts(m, parts, q.tracks, q.startDTS, q.duration).Some?
    ensures var r := MuxParts(m, parts, q.tracks, q.startDTS, q.duration).value;
            && ValidCalls(r.calls, |q.tracks|)
            && History(r.calls, i) == History(m.calls, i) + PartsItems(parts[..PlayedParts(parts, q)], q, i)
    decreases |parts|
  {
    if parts == [] {
      assert History(m.calls, i) + [] == History(m.calls, i);
    } else {
      var front := parts[..|parts| - 1];
      var r := MuxParts(m, front, q.tracks, q.startDTS, q.duration).value;
      PartsHistory(m, front, q, i);
      StopsIff(m, front, q);
      if r.stop {
        assert front[..PlayedParts(front, q)] == parts[..PlayedParts(parts, q)];
      } else {
        assert front[..|front|] == front && parts[..|parts|] == parts;
        OneMorePart(m, parts, r, q, i);
      }
    }
  }

  lemma {:induction false} OneMorePart(m: Muxed, parts: seq<seq<Run>>, r: Muxed, q: Request, i: nat)
    requires ValidTracks(q.tracks) && i < |q.tracks| && parts != [] && !r.stop && ValidCalls(r.calls, |q.tracks|)
    requires MuxParts(m, parts[..|parts| - 1], q.tracks, q.startDTS, q.duration) == Some(r)
    requires MuxParts(m, parts, q.tracks, q.startDTS, q.duration).Some?
    requires History(r.calls, i) == History(m.calls, i) + PartsItems(parts[..|parts| - 1], q, i)
    ensures var t := MuxParts(m, parts, q.tracks, q.startDTS, q.duration).value;
            ValidCalls(t.calls, |q.tracks|) && History(t.calls, i) == History(m.calls, i) + PartsItems(parts, q, i)
  {
    PartHistory(r, parts[|parts| - 1], q, i);
    Regroup(History(m.calls, i), PartsItems(parts[..|parts| - 1], q, i), PartItems(parts[|parts| - 1], q, i));
  }

  // how long a segment lasts

  /** The end of what is played of a run, from the start of its segment. */
  function RunElapsed(run: Run, q: Request): int
    requires ValidTracks(q.tracks) && FindTrack(q.tracks, run.trackID).Some?
  {
    var i := FindTrack(q.tracks, run.trackID).value;
    TimestampToDuration(run.baseTime + SumDurations(run.entries, PlayedFrom(run, q.Start(i), q.Limit(i), 0)),
                        q.tracks[i].timeScale)
  }

  predicate Reaches(run: Run, q: Request, e: int)
    requires ValidTracks(q.tracks)
  {
    FindTrack(q.tracks, run.trackID).Some? && RunElapsed(run, q) == e
  }

  predicate EndsBy(run: Run, q: Request, e: int)
    requires ValidTracks(q.tracks)
  {
    FindTrack(q.tracks, run.trackID).Some? && RunElapsed(run, q) <= e
  }

  lemma {:induction false} PartElapsed(m: Muxed, runs: seq<Run>, q: Request)
    requires ValidTracks(q.tracks) && MuxPart(m, runs, q.tracks, q.startDTS, q.duration).Some?
    ensures var e := MuxPart(m, runs, q.tracks, q.startDTS, q.duration).value.elapsed;
            && e >= m.elapsed && (forall j: nat :: j < |runs| ==> EndsBy(runs[j], q, e))
            && (e == m.elapsed || exists j: nat :: j < |runs| && Reaches(runs[j], q, e))
    decreases |runs|
  {
    if runs != [] {
      var n: nat := |runs| - 1;
      PartElapsed(m, runs[..n], q);
      var before := MuxPart(m, runs[..n], q.tracks, q.startDTS, q.duration).value.elapsed;
      assert forall j: nat :: j < n ==> runs[..n][j] == runs[j];
      LaterRun(m.elapsed, before, Longer(before, RunElapsed(runs[n], q)), runs, runs[n], q);
    }
  }

  lemma {:induction false} LaterRun(a: int, b: int, e: int, runs: seq<Run>, last: Run, q: Request)
    requires ValidTracks(q.tracks) && runs != [] && last == runs[|runs| - 1] && a <= b
    requires forall j: nat :: j < |runs| - 1 ==> EndsBy(runs[j], q, b)
    requires b == a || exists j: nat :: j < |runs| - 1 && Reaches(runs[j], q, b)
    requires FindTrack(q.tracks, last.trackID).Some? && e == Longer(b, RunElapsed(last, q))
    ensures e >= a && forall j: nat :: j < |runs| ==> EndsBy(runs[j], q, e)
    ensures e == a || exists j: nat :: j < |runs| && Reaches(runs[j], q, e)
  {
    forall j: nat | j < |runs| ensures EndsBy(runs[j], q, e) {
      assert j < |runs| - 1 ==> EndsBy(runs[j], q, b);
    }
    if e != b {
      assert Reaches(runs[|runs| - 1], q, e);
    }
  }

  /** What playback takes for the duration of a segment is the latest end of what is played of it, on any
      track, and never negative. */
  lemma {:induction false} ElapsedIsLatestEnd(m: Muxed, parts: seq<seq<Run>>, q: Request)
    requires ValidTracks(q.tracks) && !m.stop && MuxParts(m, parts, q.tracks, q.startDTS, q.duration).Some?
    ensures var e, n := MuxParts(m, parts, q.tracks, q.startDTS, q.duration).value.elapsed, PlayedParts(parts, q);
            && e >= m.elapsed
            && (forall k: nat, j: nat :: k < n && j < |parts[k]| ==> EndsBy(parts[k][j], q, e))
            && (e == m.elapsed || exists k: nat, j: nat :: k < n && j < |parts[k]| && Reaches(parts[k][j], q, e))
    decreases |parts|
  {
    if parts != [] {
      var n: nat := |parts| - 1;
      ElapsedIsLatestEnd(m, parts[..n], q);
      StopsIff(m, parts[..n], q);
      var r := MuxParts(m, parts[..n], q.tracks, q.startDTS, q.duration).value;
      if !r.stop {
        PartElapsed(r, parts[n], q);
        LaterPart(m.elapsed, r.elapsed, MuxPart(r, parts[n], q.tracks, q.startDTS, q.duration).value.elapsed, parts,
                  parts[n], q);
      }
    }
  }

  lemma {:induction false} LaterPart(a: int, b: int, e: int, parts: seq<seq<Run>>, last: seq<Run>, q: Request)
    requires ValidTracks(q.tracks) && parts != [] && last == parts[|parts| - 1] && a <= b <= e
    requires forall k: nat, j: nat :: k < |parts| - 1 && j < |parts[k]| ==> EndsBy(parts[k][j], q, b)
    requires b == a || exists k: nat, j: nat :: k < |parts| - 1 && j < |parts[k]| && Reaches(parts[k][j], q, b)
    requires forall j: nat :: j < |last| ==> EndsBy(last[j], q, e)
    requires e == b || exists j: nat :: j < |last| && Reaches(last[j], q, e)
    ensures forall k: nat, j: nat :: k < |parts| && j < |parts[k]| ==> EndsBy(parts[k][j], q, e)
    ensures e == a || exists k: nat, j: nat :: k < |parts| && j < |parts[k]| && Reaches(parts[k][j], q, e)
  {
    forall k: nat, j: nat | k < |parts| && j < |parts[k]| ensures EndsBy(parts[k][j], q, e) {
      assert k < |parts| - 1 ==> EndsBy(parts[k][j], q, b);
    }
  }

  // several segments

  function RequestOf(segments: seq<SegmentFile>, k: nat, start: int, duration: int): Request
    requires k < |segments| && (segments[0].init.mtxi.Some? ==> segments[k].init.mtxi.Some?)
  {
    Request(segments[0].init.tracks, Offset(segments, k, start), duration)
  }

  /** The samples that the first n segments contribute to track i. */
  function SegmentsItems(segments: seq<SegmentFile>, n: nat, start: int, duration: int, i: nat): seq<Item>
    requires n <= |segments| && segments != [] && i < |segments[0].init.tracks|
    requires forall k :: 0 <= k < n ==> segments[k].init.mtxi.Some? == segments[0].init.mtxi.Some?
  {
    if n == 0 then []
    else
      var q := RequestOf(segments, n - 1, start, duration);
      SegmentsItems(segments, n - 1, start, duration, i) +
      PartsItems(segments[n - 1].parts[..PlayedParts(segments[n - 1].parts, q)], q, i)
  }

  /** For each track a muxer is told exactly the samples of the segments that are played, each placed at its
      offset, in order and up to the requested end, and it is driven in a valid way. */
  lemma {:induction false} SeekHistory(segments: seq<SegmentFile>, n: nat, start: int, duration: int, i: nat)
    requires 0 < n <= |segments| && ValidTracks(segments[0].init.tracks) && i < |segments[0].init.tracks|
    requires SeekTo(segments, n, start, duration).Some?
    ensures var r := SeekTo(segments, n, start, duration).value;
            && ValidCalls(r.calls, |segments[0].init.tracks|)
            && History(r.calls, i) == SegmentsItems(segments, r.played, start, duration, i)
    decreases n
  {
    if n == 1 {
      FirstSegmentHistory(segments, start, duration, i);
    } else {
      SeekHistory(segments, n - 1, start, duration, i);
      var r := SeekTo(segments, n - 1, start, duration).value;
      if r.played == n - 1 &&
        CanBeConcatenated(segments[n - 2].init, r.end, segments[n - 1].init, segments[n - 1].start)
      {
        PartsHistory(Muxed(r.calls, 0, false), segments[n - 1].parts, RequestOf(segments, n - 1, start, duration), i);
      }
    }
  }

  lemma {:induction false} FirstSegmentHistory(segments: seq<SegmentFile>, start: int, duration: int, i: nat)
    requires segments != [] && ValidTracks(segments[0].init.tracks) && i < |segments[0].init.tracks|
    requires SeekTo(segments, 1, start, duration).Some?
    ensures var r := SeekTo(segments, 1, start, duration).value;
            && ValidCalls(r.calls, |segments[0].init.tracks|)
            && History(r.calls, i) == SegmentsItems(segments, 1, start, duration, i)
  {
    var q := RequestOf(segments, 0, start, duration);
    assert q.startDTS == segments[0].start - start;
    PartsHistory(Muxed([], 0, false), segments[0].parts, q, i);
    var items := PartsItems(segments[0].parts[..PlayedParts(segments[0].parts, q)], q, i);
    assert History([], i) == [] && [] + items == items;
    assert SegmentsItems(segments, 0, start, duration, i) == [];
  }

  // when playing does not fail

  predicate AreKnown(runs: seq<Run>, tracks: seq<InitTrack>) {
    forall j :: 0 <= j < |runs| ==> FindTrack(tracks, runs[j].trackID).Some?
  }

  predicate HasKnownRuns(segment: SegmentFile, tracks: seq<InitTrack>) {
    forall m :: 0 <= m < |segment.parts| ==> AreKnown(segment.parts[m], tracks)
  }

  lemma {:induction false} KnownRunsPlay(m: Muxed, runs: seq<Run>, tracks: seq<InitTrack>, startDTS: int, duration: int)
    requires ValidTracks(tracks) && AreKnown(runs, tracks)
    ensures MuxPart(m, runs, tracks, startDTS, duration).Some?
    decreases |runs|
  {
    if runs != [] {
      KnownRunsPlay(m, runs[..|runs| - 1], tracks, startDTS, duration);
    }
  }

  lemma {:induction false} KnownPartsPlay(
    m: Muxed, parts: seq<seq<Run>>, tracks: seq<InitTrack>, startDTS: int, duration: int)
    requires ValidTracks(tracks) && forall n :: 0 <= n < |parts| ==> AreKnown(parts[n], tracks)
    ensures MuxParts(m, parts, tracks, startDTS, duration).Some?
    decreases |parts|
  {
    if parts != [] {
      var n := |parts| - 1;
      KnownPartsPlay(m, parts[..n], tracks, startDTS, duration);
      var r := MuxParts(m, parts[..n], tracks, startDTS, duration).value;
      if !r.stop {
        KnownRunsPlay(r, parts[n], tracks, startDTS, duration);
      }
    }
  }

  /** Playing fails only on a run whose track is not in the header of the first segment. */
  lemma {:induction false} KnownSegmentsPlay(segments: seq<SegmentFile>, n: nat, start: int, duration: int)
    requires 0 < n <= |segments| && ValidTracks(segments[0].init.tracks)
    requires forall s :: 0 <= s < |segments| ==> HasKnownRuns(segments[s], segments[0].init.tracks)
    ensures SeekTo(segments, n, start, duration).Some?
    decreases n
  {
    var tracks := segments[0].init.tracks;
    if n == 1 {
      KnownPartsPlay(Muxed([], 0, false), segments[0].parts, tracks, segments[0].start - start, duration);
    } else {
      KnownSegmentsPlay(segments, n - 1, start, duration);
      var r := SeekTo(segments, n - 1, start, duration).value;
      if r.played == n - 1 &&
         CanBeConcatenated(segments[n - 2].init, r.end, segments[n - 1].init, segments[n - 1].start)
      {
        KnownPartsPlay(Muxed(r.calls, 0, false), segments[n - 1].parts, tracks, Offset(segments, n - 1, start),
                       duration);
      }
    }
  }
}
