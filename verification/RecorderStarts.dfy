/** Where files start, in time stamps and by the wall clock, compared with where the previous file ends. */
module RecorderStarts {
  import opened Options
  import opened Rounding
  import opened RecorderModel
  import opened RecorderSafety
  import opened RecorderRuns
  import opened RecorderSwitch
  import opened RecorderDurations
  import opened RecorderFiles

  // the sample that starts a file

  /** A sample of track j, known or pending, has this time stamp in nanoseconds and this wall clock time. */
  predicate IsSampleAt(s: State, j: nat, k: nat, dts: int, ntp: int)
    requires ValidTracks(s.tracks)
  {
    && j < |s.tracks| && k < |History(s, j)|
    && Dts(s.tracks[j], History(s, j)[k].dts) == dts && History(s, j)[k].ntp == ntp
  }

  /** The time stamp and the wall clock time belong to one sample. */
  ghost predicate IsOfSample(s: State, dts: int, ntp: int)
    requires ValidTracks(s.tracks)
  {
    exists j: nat, k: nat :: IsSampleAt(s, j, k, dts, ntp)
  }

  /** They belong to one sample or, if that is allowed, all samples were long before time zero when the file was
      begun. */
  ghost predicate IsStart(s: State, dts: int, ntp: int, orZero: bool)
    requires ValidTracks(s.tracks)
  {
    IsOfSample(s, dts, ntp) || (orZero && dts == 0 && ntp == -62_135_596_800_000_000_000)
  }

  ghost predicate StartsAreRight(s: State, orZero: bool)
    requires ValidTracks(s.tracks)
  {
    && (forall n :: 0 <= n < |s.files| ==> IsStart(s, s.files[n].startDTS, s.files[n].startNTP, orZero))
    && (s.segment.Some? ==> IsStart(s, s.segment.value.startDTS, s.segment.value.startNTP, orZero))
  }

  /** What was known of a track stays, but for durations. */
  predicate HistoryGrows(s: State, t: State, j: nat)
    requires j < |s.tracks| && j < |t.tracks|
  {
    && |History(s, j)| <= |History(t, j)| && t.tracks[j].timeScale == s.tracks[j].timeScale
    && forall k :: 0 <= k < |History(s, j)| ==>
       History(t, j)[k].dts == History(s, j)[k].dts && History(t, j)[k].ntp == History(s, j)[k].ntp
  }

  lemma {:induction false} WriteGrows(s: State, i: nat, sample: Sample, c: Settings, j: nat)
    requires ValidTracks(s.tracks) && i < |s.tracks| && j < |s.tracks| && !s.failed && !Write(s, i, sample, c).failed
    requires s.tracks[i].next.None? ==> OfTrack(s.log, i) == []
    ensures |Write(s, i, sample, c).tracks| == |s.tracks| && HistoryGrows(s, Write(s, i, sample, c), j)
  {
    WriteTracks(s, i, sample, c);
    if i == j {
      WriteOwnHistory(s, i, sample, c);
    } else {
      WriteOtherHistory(s, i, sample, c, j);
    }
  }

  lemma {:induction false} StartStays(s: State, t: State, dts: int, ntp: int, orZero: bool)
    requires ValidTracks(s.tracks) && ValidTracks(t.tracks) && |t.tracks| == |s.tracks| && IsStart(s, dts, ntp, orZero)
    requires forall j: nat :: j < |s.tracks| ==> HistoryGrows(s, t, j)
    ensures IsStart(t, dts, ntp, orZero)
  {
    if j: nat, k: nat :| IsSampleAt(s, j, k, dts, ntp) {
      assert HistoryGrows(s, t, j);
      assert IsSampleAt(t, j, k, dts, ntp);
    }
  }

  /** The pending sample is the last one of the history. */
  lemma {:induction false} PendingIsLast(s: State, j: nat)
    requires ValidTracks(s.tracks) && IsPending(s.tracks, j)
    ensures IsSampleAt(s, j, |History(s, j)| - 1, PendingDts(s.tracks, j), s.tracks[j].next.value.ntp)
  {
  }

  ghost predicate SomeIsClose(tracks: seq<Track>, maxDTS: int)
    requires ValidTracks(tracks)
  {
    exists j: nat :: IsClose(tracks, j, maxDTS)
  }

  predicate IsPosition(tracks: seq<Track>, maxDTS: int, ntp: int, dts: int, j: nat)
    requires ValidTracks(tracks)
  {
    IsClose(tracks, j, maxDTS) && PendingDts(tracks, j) == dts && tracks[j].next.value.ntp == ntp
  }

  lemma {:induction false} FirstTracks(tracks: seq<Track>, maxDTS: int, ntp: int, dts: int, j: nat)
    requires ValidTracks(tracks) && j < |tracks| - 1
    ensures IsClose(tracks[..|tracks| - 1], j, maxDTS) <==> IsClose(tracks, j, maxDTS)
    ensures IsPosition(tracks[..|tracks| - 1], maxDTS, ntp, dts, j) <==> IsPosition(tracks, maxDTS, ntp, dts, j)
  {
  }

  lemma {:induction false} NoneIsClose(tracks: seq<Track>, maxDTS: int)
    requires ValidTracks(tracks) && tracks != [] && !SomeIsClose(tracks[..|tracks| - 1], maxDTS)
    requires !IsClose(tracks, |tracks| - 1, maxDTS)
    ensures !SomeIsClose(tracks, maxDTS)
  {
    forall j: nat ensures !IsClose(tracks, j, maxDTS) {
      if j < |tracks| - 1 {
        FirstTracks(tracks, maxDTS, 0, 0, j);
      }
    }
  }

  /** The position when one more track is looked at. */
  lemma {:induction false} OldestStep(tracks: seq<Track>, maxDTS: int)
    requires ValidTracks(tracks) && tracks != []
    ensures var n: nat, rest := |tracks| - 1, OldestPending(tracks[..|tracks| - 1], maxDTS);
            if IsClose(tracks, n, maxDTS) && PendingDts(tracks, n) <= rest.1
            then IsPosition(tracks, maxDTS, OldestPending(tracks, maxDTS).0, OldestPending(tracks, maxDTS).1, n)
            else OldestPending(tracks, maxDTS) == rest
  {
  }

  /** If a pending sample is close to the newest one, the position comes from a pending sample. */
  lemma {:induction false} OldestIsPending(tracks: seq<Track>, maxDTS: int, ntp: int, dts: int)
    requires ValidTracks(tracks) && forall j: nat :: IsPending(tracks, j) ==> PendingDts(tracks, j) <= maxDTS
    requires OldestPending(tracks, maxDTS) == (ntp, dts)
    ensures if SomeIsClose(tracks, maxDTS) then exists j: nat :: IsPosition(tracks, maxDTS, ntp, dts, j)
            else ntp == ZERO_TIME && dts == maxDTS
    decreases |tracks|
  {
    if tracks != [] {
      var n: nat, rest := |tracks| - 1, tracks[..|tracks| - 1];
      var before := OldestPending(rest, maxDTS);
      forall j: nat | IsPending(rest, j) ensures PendingDts(rest, j) <= maxDTS {
        assert IsPending(tracks, j) && PendingDts(rest, j) == PendingDts(tracks, j);
      }
      OldestIsPending(rest, maxDTS, before.0, before.1);
      OldestStep(tracks, maxDTS);
      if IsClose(tracks, n, maxDTS) && PendingDts(tracks, n) <= before.1 {
        assert IsPosition(tracks, maxDTS, ntp, dts, n);
      } else if SomeIsClose(rest, maxDTS) {
        var k: nat :| IsPosition(rest, maxDTS, ntp, dts, k);
        FirstTracks(tracks, maxDTS, ntp, dts, k);
        assert IsPosition(tracks, maxDTS, ntp, dts, k);
      } else {
        NoneIsClose(tracks, maxDTS);
      }
    }
  }

  /** Some pending sample is not before time zero. */
  ghost predicate HasReachedZero(tracks: seq<Track>)
    requires ValidTracks(tracks)
  {
    exists j: nat :: IsPending(tracks, j) && PendingDts(tracks, j) >= 0
  }

  /** Where the next file starts: at a pending sample within a second of the newest one, and none of these is older; at
      time zero, with the zero time, if there is none, because all are more than a second before time zero. */
  lemma {:induction false} NextStart(s: State)
    requires ValidTracks(s.tracks)
    ensures var (ntp, dts) := NextSegmentStartingPos(s.tracks);
            && IsStart(s, dts, ntp, true)
            && (HasReachedZero(s.tracks) ==> IsOfSample(s, dts, ntp))
  {
    var newest := NewestPending(s.tracks);
    NewestIsMaximum(s.tracks);
    var (ntp, dts) := NextSegmentStartingPos(s.tracks);
    OldestIsPending(s.tracks, newest, ntp, dts);
    if SomeIsClose(s.tracks, newest) {
      var j: nat :| IsPosition(s.tracks, newest, ntp, dts, j);
      PendingIsLast(s, j);
    } else if j: nat :| IsPending(s.tracks, j) && PendingDts(s.tracks, j) >= 0 {
      var k := NewestTrack(s.tracks, j);
      assert IsClose(s.tracks, k, newest);
    } else {
      assert newest == 0;
    }
  }

  // whole recordings

  /** What is known about every track at any time. */
  ghost predicate HistoriesAreRight(s: State, inputs: seq<Input>) {
    forall j: nat :: j < |s.tracks| ==> HistoryIsRight(s, inputs, j)
  }

  lemma {:induction false} RecordingHistories(tracks: seq<Track>, inputs: seq<Input>, c: Settings)
    requires ValidInputs(tracks, inputs) && Fresh(tracks) && !Record(tracks, inputs, c).failed
    ensures HistoriesAreRight(Record(tracks, inputs, c), inputs)
  {
    forall j: nat | j < |tracks| ensures HistoryIsRight(Record(tracks, inputs, c), inputs, j) {
      RecordingHistory(tracks, inputs, c, j);
    }
  }

  /** The segment in which a sample is stored starts where it did, or at that sample. */
  lemma {:induction false} CurrentStart(s: State, i: nat, t: State, orZero: bool)
    requires ValidTracks(s.tracks) && ValidTracks(t.tracks) && i < |s.tracks| && |t.tracks| == |s.tracks|
    requires IsInTime(s, i) && StartsAreRight(s, orZero) && forall j: nat :: j < |s.tracks| ==> HistoryGrows(s, t, j)
    ensures IsStart(t, StartFor(s, i), NtpFor(s, i), orZero)
  {
    PendingIsLast(s, i);
    assert IsStart(s, StartFor(s, i), NtpFor(s, i), orZero);
    StartStays(s, t, StartFor(s, i), NtpFor(s, i), orZero);
  }

  lemma {:induction false} StartsFollow(s: State, i: nat, t: State, orZero: bool)
    requires ValidTracks(s.tracks) && ValidTracks(t.tracks) && i < |s.tracks| && |t.tracks| == |s.tracks|
    requires SegmentsFollow(s, i, t) && StartsAreRight(s, orZero)
    requires forall j: nat :: j < |s.tracks| ==> HistoryGrows(s, t, j)
    requires orZero || |t.files| == |s.files| || HasReachedZero(t.tracks)
    ensures StartsAreRight(t, orZero)
  {
    if IsInTime(s, i) {
      CurrentStart(s, i, t, orZero);
      NextStart(t);
    } else if s.segment.Some? {
      StartStays(s, t, s.segment.value.startDTS, s.segment.value.startNTP, orZero);
    }
    FilesStay(s, t, orZero);
  }

  lemma {:induction false} WriteStarts(
    s: State, inputs: seq<Input>, i: nat, sample: Sample, c: Settings, t: State, orZero: bool)
    requires StorageIsRight(s, c) && i < |s.tracks| && !s.failed && t == Write(s, i, sample, c) && !t.failed
    requires HistoriesAreRight(s, inputs) && StartsAreRight(s, orZero) && ValidTracks(t.tracks)
    requires orZero || |t.files| == |s.files| || HasReachedZero(t.tracks)
    ensures StartsAreRight(t, orZero)
  {
    WriteSegments(s, i, sample, c);
    WriteTracks(s, i, sample, c);
    assert HistoryIsRight(s, inputs, i);
    forall j: nat | j < |s.tracks| ensures HistoryGrows(s, t, j) {
      WriteGrows(s, i, sample, c, j);
    }
    StartsFollow(s, i, t, orZero);
  }

  lemma {:induction false} FilesStay(s: State, t: State, orZero: bool)
    requires ValidTracks(s.tracks) && ValidTracks(t.tracks) && |t.tracks| == |s.tracks| && StartsAreRight(s, orZero)
    requires |s.files| <= |t.files| <= |s.files| + 1 && t.files[..|s.files|] == s.files
    requires forall j: nat :: j < |s.tracks| ==> HistoryGrows(s, t, j)
    ensures forall n :: 0 <= n < |s.files| ==> IsStart(t, t.files[n].startDTS, t.files[n].startNTP, orZero)
  {
    forall n | 0 <= n < |s.files| ensures IsStart(t, t.files[n].startDTS, t.files[n].startNTP, orZero) {
      assert t.files[n] == t.files[..|s.files|][n] == s.files[n];
      StartStays(s, t, s.files[n].startDTS, s.files[n].startNTP, orZero);
    }
  }

  /** Over every recording that has not failed: a file starts at the time stamp and the wall clock time of one of the
      samples that were written, or at time zero with the zero time when all pending samples were long before that. */
  lemma {:induction false} FilesStartAtSamples(tracks: seq<Track>, inputs: seq<Input>, c: Settings)
    requires ValidInputs(tracks, inputs) && Fresh(tracks) && !Record(tracks, inputs, c).failed
    ensures StartsAreRight(Record(tracks, inputs, c), true)
    decreases |inputs|
  {
    if inputs != [] {
      var before, x := inputs[..|inputs| - 1], inputs[|inputs| - 1];
      assert inputs == before + [x];
      RecordSnoc(tracks, before, x, c);
      NotFailedBefore(tracks, inputs, c, |before|);
      FilesStartAtSamples(tracks, before, c);
      RecordingHistories(tracks, before, c);
      RecordingIsRight(tracks, before, c);
      WriteStarts(Record(tracks, before, c), before, x.track, x.sample, c, Record(tracks, inputs, c), true);
    }
  }
}
