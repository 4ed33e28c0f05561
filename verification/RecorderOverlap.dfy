/** How far a file starts before the end of the previous one: never more than a second, to within a nanosecond, and
    no later than its end if the tracks keep together. */
module RecorderOverlap {
  import opened Options
  import opened Rounding
  import opened RecorderModel
  import opened RecorderSafety
  import opened RecorderRuns
  import opened RecorderSwitch
  import opened RecorderDurations
  import opened RecorderFiles
  import opened RecorderStarts

  lemma {:induction false} SmallMultiple(x: int, rate: int)
    requires rate > 0 && -2 * rate < x * rate < 2 * rate
    ensures -1 <= x <= 1
  {
    if x >= 2 {
      ProductOrder(2, x, rate);
    } else if x <= -2 {
      ProductOrder(x, -2, rate);
    }
  }

  lemma {:induction false} CloseIntegers(a: int, b: int, c: int, rate: int)
    requires rate > 0 && -2 * rate < rate * a + rate * b - rate * c < 2 * rate
    ensures -1 <= a + b - c <= 1
  {
    assert (a + b - c) * rate == rate * a + rate * b - rate * c;
    SmallMultiple(a + b - c, rate);
  }

  /** Converting a sum to nanoseconds, or converting first and adding then. */
  lemma {:induction false} ConversionOfSum(t: int, d: nat, rate: int)
    requires rate > 0
    ensures -1 <= TimestampToDuration(t, rate) + TimestampToDuration(d, rate) - TimestampToDuration(t + d, rate) <= 1
  {
    MultiplyAndDivideError(t, SECOND, rate);
    MultiplyAndDivideError(d, SECOND, rate);
    MultiplyAndDivideError(t + d, SECOND, rate);
    CloseIntegers(TimestampToDuration(t, rate), TimestampToDuration(d, rate), TimestampToDuration(t + d, rate), rate);
  }

  /** A sample that lasts until the next one ends when that starts, to within a nanosecond, unless the gap is too long
      for its duration, and never later. */
  lemma {:induction false} EndOfSample(track: Track, x: Sample, next: Sample)
    requires track.timeScale > 0 && x.dts <= next.dts && x.duration == (next.dts - x.dts) % UINT32
    ensures End(track, x) <= Dts(track, next.dts) + 1
    ensures next.dts - x.dts < UINT32 ==> End(track, x) >= Dts(track, next.dts) - 1
  {
    ConversionOfSum(x.dts, x.duration, track.timeScale);
    MultiplyAndDivideMonotone(x.dts + x.duration, next.dts, SECOND, track.timeScale);
  }

  /** What is known of a track ends by its pending sample. */
  lemma {:induction false} KnownEndsByPending(s: State, inputs: seq<Input>, i: nat, m: nat)
    requires ValidTracks(s.tracks) && IsPending(s.tracks, i) && HistoryIsRight(s, inputs, i) && m < |History(s, i)| - 1
    ensures End(s.tracks[i], History(s, i)[m]) <= PendingDts(s.tracks, i) + 1
  {
    var h := History(s, i);
    EndOfSample(s.tracks[i], h[m], h[m + 1]);
    ChainIsOrdered(h, m + 1, |h| - 1);
    MultiplyAndDivideMonotone(h[m + 1].dts, h[|h| - 1].dts, SECOND, s.tracks[i].timeScale);
  }

  lemma {:induction false} LogInTrack(log: seq<Fate>, k: nat) returns (m: nat)
    requires k < |log|
    ensures m < |OfTrack(log, log[k].track)| && OfTrack(log, log[k].track)[m] == log[k]
    decreases |log|
  {
    var n := |log| - 1;
    if k < n {
      m := LogInTrack(log[..n], k);
    } else {
      m := |OfTrack(log[..n], log[k].track)|;
    }
  }

  /** Everything that was kept in a file ends by the newest pending sample. */
  lemma {:induction false} FileEndsByNewest(s: State, inputs: seq<Input>, n: nat, bound: int)
    requires ValidTracks(s.tracks) && HistoriesAreRight(s, inputs) && bound <= NewestPending(s.tracks)
    ensures LatestEnd(s.log, s.tracks, n, None, bound) <= NewestPending(s.tracks) + 1
  {
    LatestEndIsMaximum(s.log, s.tracks, n, None, bound);
    var e := LatestEnd(s.log, s.tracks, n, None, bound);
    if e != bound {
      var k :| 0 <= k < |s.log| && IsIn(s.log[k], s.tracks, n, None) &&
        End(s.tracks[s.log[k].track], s.log[k].sample) == e;
      var i := s.log[k].track;
      var m := LogInTrack(s.log, k);
      assert HistoryIsRight(s, inputs, i);
      KnownEndsByPending(s, inputs, i, m);
      NewestIsMaximum(s.tracks);
      assert IsPending(s.tracks, i);
    }
  }

  /** No pending sample is more than `spread` nanoseconds behind another one. */
  ghost predicate AreTogether(tracks: seq<Track>, spread: int)
    requires ValidTracks(tracks)
  {
    forall j: nat, k: nat :: IsPending(tracks, j) && IsPending(tracks, k) ==>
      PendingDts(tracks, k) - PendingDts(tracks, j) <= spread
  }

  /** The start of the next segment when the pending samples are together. */
  lemma {:induction false} StartTogether(tracks: seq<Track>, i: nat, spread: int)
    requires ValidTracks(tracks) && IsPending(tracks, i) && PendingDts(tracks, i) >= 0
    requires AreTogether(tracks, spread) && 0 <= spread <= 1_000_000_000
    ensures NewestPending(tracks) - spread <= NextSegmentStartingPos(tracks).1 <= PendingDts(tracks, i)
  {
    var newest := NewestPending(tracks);
    NewestIsMaximum(tracks);
    OldestIsMinimum(tracks, newest);
    var k := NewestTrack(tracks, i);
    assert IsClose(tracks, i, newest);
    OldestIsPending(tracks, newest, NextSegmentStartingPos(tracks).0, NextSegmentStartingPos(tracks).1);
  }

  // one write

  function GapAfter(f: File, start: int): int {
    start - (f.startDTS + f.duration)
  }

  /** The next segment starts at most a second, and a nanosecond for rounding, before the end of the file. */
  lemma {:induction false} SwitchOverlap(t: State, inputs: seq<Input>, c: Settings, n: nat, i: nat)
    requires ValidTracks(t.tracks) && n < |t.files| && t.segment.Some? && HistoriesAreRight(t, inputs)
    requires DurationsAreRight(t, c) && t.files[n].number == n
    requires (t.segment.value.startNTP, t.segment.value.startDTS) == NextSegmentStartingPos(t.tracks)
    requires IsPending(t.tracks, i) && t.files[n].startDTS <= PendingDts(t.tracks, i)
    ensures GapAfter(t.files[n], t.segment.value.startDTS) >= -1_000_000_001
    ensures PendingDts(t.tracks, i) >= 0 ==>
              forall spread :: 0 <= spread <= 1_000_000_000 && AreTogether(t.tracks, spread) ==>
                GapAfter(t.files[n], t.segment.value.startDTS) >= -spread - 1
  {
    var newest := NewestPending(t.tracks);
    NewestIsMaximum(t.tracks);
    OldestIsMinimum(t.tracks, newest);
    assert FileLasts(t.log, t.tracks, t.files[n], c);
    FileEndsByNewest(t, inputs, n, t.files[n].startDTS);
    if PendingDts(t.tracks, i) >= 0 {
      forall spread | 0 <= spread <= 1_000_000_000 && AreTogether(t.tracks, spread)
        ensures GapAfter(t.files[n], t.segment.value.startDTS) >= -spread - 1
      {
        StartTogether(t.tracks, i, spread);
      }
    }
  }

  /** If the tracks keep together, the next segment starts no later than the file ends, to within a nanosecond. */
  lemma {:induction false} NoGap(t: State, c: Settings, n: nat, i: nat, y: Sample, spread: int)
    requires ValidTracks(t.tracks) && n < |t.files| && t.segment.Some? && DurationsAreRight(t, c)
    requires (t.segment.value.startNTP, t.segment.value.startDTS) == NextSegmentStartingPos(t.tracks)
    requires IsPending(t.tracks, i) && PendingDts(t.tracks, i) >= 0
    requires AreTogether(t.tracks, spread) && 0 <= spread <= 1_000_000_000
    requires t.files[n].number == n
    requires t.log != [] && y == t.log[|t.log| - 1].sample && t.log[|t.log| - 1].track == i
    requires IsIn(t.log[|t.log| - 1], t.tracks, n, None)
    requires y.dts <= t.tracks[i].next.value.dts && y.duration == (t.tracks[i].next.value.dts - y.dts) % UINT32
    requires t.tracks[i].next.value.dts - y.dts < UINT32
    ensures GapAfter(t.files[n], t.segment.value.startDTS) <= 1
  {
    assert FileLasts(t.log, t.tracks, t.files[n], c);
    LatestEndIsMaximum(t.log, t.tracks, n, None, t.files[n].startDTS);
    EndOfSample(t.tracks[i], y, t.tracks[i].next.value);
    StartTogether(t.tracks, i, spread);
  }

  /** A write that completes a file. */
  predicate Completes(s: State, t: State) {
    |t.files| == |s.files| + 1
  }

  /** The tracks are together after the write, time zero has been reached, and the stored sample does not last for
      longer than 32 bits can hold. */
  ghost predicate IsSteadySwitch(s: State, i: nat, t: State, spread: int)
    requires i < |s.tracks| && s.tracks[i].next.Some? && ValidTracks(t.tracks) && IsPending(t.tracks, i)
  {
    && AreTogether(t.tracks, spread) && PendingDts(t.tracks, i) >= 0
    && t.tracks[i].next.value.dts - s.tracks[i].next.value.dts < UINT32
  }

  /** The state after a write that completes a file. */
  lemma {:induction false} CompletedBy(s: State, before: seq<Input>, x: Input, c: Settings)
    requires StorageIsRight(s, c) && x.track < |s.tracks| && !s.failed && !Write(s, x.track, x.sample, c).failed
    requires HistoriesAreRight(s, before) && DurationsAreRight(s, c) && Completes(s, Write(s, x.track, x.sample, c))
    ensures var t, n, i := Write(s, x.track, x.sample, c), |s.files|, x.track;
            && ValidTracks(t.tracks) && t.files[..n] == s.files && t.segment.Some? && t.files[n].number == n
            && HistoriesAreRight(t, before + [x]) && DurationsAreRight(t, c)
            && IsInTime(s, i) && IsPending(t.tracks, i) && t.tracks[i].next.value == PendingAfter(s, i, x.sample)
            && t.files[n].startDTS <= PendingDts(t.tracks, i)
            && (t.segment.value.startNTP, t.segment.value.startDTS) == NextSegmentStartingPos(t.tracks)
  {
    var t, n, i := Write(s, x.track, x.sample, c), |s.files|, x.track;
    WriteSegments(s, i, x.sample, c);
    WriteTracks(s, i, x.sample, c);
    WriteRight(s, before, x, c);
    PendingIsLater(s, i, x.sample);
  }

  lemma {:induction false} WriteOverlap(
    s: State, before: seq<Input>, x: Input, c: Settings, spread: int)
    requires StorageIsRight(s, c) && x.track < |s.tracks| && !s.failed && !Write(s, x.track, x.sample, c).failed
    requires HistoriesAreRight(s, before) && DurationsAreRight(s, c) && 0 <= spread <= 1_000_000_000
    requires Completes(s, Write(s, x.track, x.sample, c))
    ensures var t, n := Write(s, x.track, x.sample, c), |s.files|;
            && s.tracks[x.track].next.Some? && ValidTracks(t.tracks) && IsPending(t.tracks, x.track)
            && t.segment.Some? && t.files[..n] == s.files
            && GapAfter(t.files[n], t.segment.value.startDTS) >= -1_000_000_001
            && (IsSteadySwitch(s, x.track, t, spread) ==>
                  -spread - 1 <= GapAfter(t.files[n], t.segment.value.startDTS))
  {
    CompletedBy(s, before, x, c);
    SwitchOverlap(Write(s, x.track, x.sample, c), before + [x], c, |s.files|, x.track);
  }

  lemma {:induction false} SteadyWriteOverlap(
    s: State, before: seq<Input>, x: Input, c: Settings, spread: int, t: State)
    requires StorageIsRight(s, c) && x.track < |s.tracks| && !s.failed && !t.failed
    requires HistoriesAreRight(s, before) && DurationsAreRight(s, c) && 0 <= spread <= 1_000_000_000
    requires t == Write(s, x.track, x.sample, c) && Completes(s, t) && ValidTracks(t.tracks)
    requires s.tracks[x.track].next.Some? && IsPending(t.tracks, x.track) && IsSteadySwitch(s, x.track, t, spread)
    ensures t.segment.Some? && GapAfter(t.files[|s.files|], t.segment.value.startDTS) <= 1
  {
    var n, i := |s.files|, x.track;
    CompletedBy(s, before, x, c);
    WriteStores(s, i, x.sample, c);
    StoredInFile(s, i, x.sample, c);
    NoGap(t, c, n, i, FateOf(s, i, x.sample, c).sample, spread);
  }

  lemma {:induction false} StoredInFile(s: State, i: nat, sample: Sample, c: Settings)
    requires StorageIsRight(s, c) && i < |s.tracks| && IsInTime(s, i)
    ensures IsIn(FateOf(s, i, sample, c), s.tracks, |s.files|, None)
  {
  }

  lemma {:induction false} PendingIsLater(s: State, i: nat, sample: Sample)
    requires ValidTracks(s.tracks) && i < |s.tracks| && s.tracks[i].next.Some?
    ensures s.tracks[i].next.value.dts <= PendingAfter(s, i, sample).dts
    ensures Dts(s.tracks[i], s.tracks[i].next.value.dts) <= Dts(s.tracks[i], PendingAfter(s, i, sample).dts)
  {
    MultiplyAndDivideMonotone(s.tracks[i].next.value.dts, PendingAfter(s, i, sample).dts, SECOND,
                              s.tracks[i].timeScale);
  }

  /** A write keeps what is known about storage, histories and durations. */
  lemma {:induction false} WriteRight(s: State, before: seq<Input>, x: Input, c: Settings)
    requires StorageIsRight(s, c) && x.track < |s.tracks| && !s.failed && !Write(s, x.track, x.sample, c).failed
    requires HistoriesAreRight(s, before) && DurationsAreRight(s, c)
    ensures var t := Write(s, x.track, x.sample, c);
            && StorageIsRight(t, c) && DurationsAreRight(t, c) && HistoriesAreRight(t, before + [x])
            && forall n :: 0 <= n < |t.files| ==> t.files[n].number == n
  {
    var t := Write(s, x.track, x.sample, c);
    AcceptIsRight(s, x.track, x.sample, c);
    AcceptKeepsDurations(s, x.track, x.sample, c);
    var (u, known) := Accept(s, x.track, x.sample);
    if known.Some? {
      StoreIsRight(u, x.track, known.value, c);
      StoreLasts(u, x.track, known.value, c);
    }
    FilesAreNumbered(t, c);
    forall j: nat | j < |t.tracks| ensures HistoryIsRight(t, before + [x], j) {
      WriteOtherTracks(s, x.track, x.sample, c);
      assert HistoryIsRight(s, before, j);
      HistoryStep(s, before, x, c, j);
    }
  }

  // whole recordings

  /** Where the file after file n starts, or the segment that is being recorded. */
  function StartAfter(s: State, n: nat): int
    requires n < |s.files| && s.segment.Some?
  {
    if n + 1 < |s.files| then s.files[n + 1].startDTS else s.segment.value.startDTS
  }

  predicate GapIsWithin(s: State, n: nat, lowest: int, highest: Option<int>)
    requires n < |s.files| && s.segment.Some?
  {
    var gap := GapAfter(s.files[n], StartAfter(s, n));
    lowest <= gap && (highest.Some? ==> gap <= highest.value)
  }

  /** From each file to the next one there is a gap, or an overlap if that is negative, within these limits. */
  predicate GapsAreWithin(s: State, lowest: int, highest: Option<int>) {
    && (s.files != [] ==> s.segment.Some?)
    && forall n: nat :: n < |s.files| ==> s.segment.Some? && GapIsWithin(s, n, lowest, highest)
  }

  lemma {:induction false} GapsStay(s: State, i: nat, t: State, lowest: int, highest: Option<int>)
    requires ValidTracks(s.tracks) && ValidTracks(t.tracks) && i < |s.tracks| && SegmentsFollow(s, i, t)
    requires GapsAreWithin(s, lowest, highest) && (s.segment.None? ==> s.files == [])
    requires Completes(s, t) ==> t.segment.Some? && GapIsWithin(t, |s.files|, lowest, highest)
    ensures GapsAreWithin(t, lowest, highest)
  {
    forall n: nat | n < |t.files| ensures t.segment.Some? && GapIsWithin(t, n, lowest, highest) {
      if n < |s.files| {
        assert GapIsWithin(s, n, lowest, highest);
        assert t.files[n] == t.files[..|s.files|][n];
        assert n + 1 < |s.files| ==> t.files[n + 1] == t.files[..|s.files|][n + 1];
      }
    }
  }

  /** The m-th write, if it completes a file, leaves the tracks together. */
  ghost predicate IsSteadyAt(tracks: seq<Track>, inputs: seq<Input>, c: Settings, spread: int, m: nat)
    requires ValidInputs(tracks, inputs) && m < |inputs|
  {
    var s, t, i := Record(tracks, inputs[..m], c), Record(tracks, inputs[..m + 1], c), inputs[m].track;
    Completes(s, t) && s.tracks[i].next.Some? && IsPending(t.tracks, i) ==> IsSteadySwitch(s, i, t, spread)
  }

  /** Whenever a file is completed, no track is more than `spread` nanoseconds behind another one, time zero has been
      reached, and the last sample has not lasted for longer than 32 bits can hold. */
  ghost predicate IsSteady(tracks: seq<Track>, inputs: seq<Input>, c: Settings, spread: int)
    requires ValidInputs(tracks, inputs)
  {
    forall m: nat :: m < |inputs| ==> IsSteadyAt(tracks, inputs, c, spread, m)
  }

  lemma {:induction false} SteadyBefore(tracks: seq<Track>, before: seq<Input>, x: Input, c: Settings, spread: int)
    requires ValidInputs(tracks, before + [x]) && ValidInputs(tracks, before) &&
             IsSteady(tracks, before + [x], c, spread)
    ensures IsSteady(tracks, before, c, spread) && IsSteadyAt(tracks, before + [x], c, spread, |before|)
  {
    var all := before + [x];
    forall m: nat | m < |before| ensures IsSteadyAt(tracks, before, c, spread, m) {
      assert IsSteadyAt(tracks, all, c, spread, m);
      assert all[..m] == before[..m] && all[..m + 1] == before[..m + 1] && all[m] == before[m];
    }
  }

  /** What is known of a recording at any time. */
  ghost predicate IsKnown(s: State, inputs: seq<Input>, c: Settings) {
    StorageIsRight(s, c) && HistoriesAreRight(s, inputs) && DurationsAreRight(s, c) && !s.failed
  }

  lemma {:induction false} RecordingIsKnown(tracks: seq<Track>, inputs: seq<Input>, c: Settings)
    requires ValidInputs(tracks, inputs) && Fresh(tracks) && !Record(tracks, inputs, c).failed
    ensures IsKnown(Record(tracks, inputs, c), inputs, c)
  {
    RecordingIsRight(tracks, inputs, c);
    RecordingLasts(tracks, inputs, c);
    RecordingHistories(tracks, inputs, c);
  }

  lemma {:induction false} StepFollows(s: State, before: seq<Input>, x: Input, c: Settings, t: State)
    requires IsKnown(s, before, c) && x.track < |s.tracks| && t == Write(s, x.track, x.sample, c) && !t.failed
    requires GapsAreWithin(s, -1_000_000_001, None)
    ensures GapsAreWithin(t, -1_000_000_001, None)
  {
    WriteSegments(s, x.track, x.sample, c);
    if Completes(s, t) {
      WriteOverlap(s, before, x, c, 0);
    }
    GapsStay(s, x.track, t, -1_000_000_001, None);
  }

  lemma {:induction false} SteadyStepFollows(
    s: State, before: seq<Input>, x: Input, c: Settings, t: State, spread: int)
    requires IsKnown(s, before, c) && x.track < |s.tracks| && t == Write(s, x.track, x.sample, c) && !t.failed
    requires GapsAreWithin(s, -spread - 1, Some(1)) && 0 <= spread <= 1_000_000_000 && ValidTracks(t.tracks)
    requires Completes(s, t) && s.tracks[x.track].next.Some? && IsPending(t.tracks, x.track) ==>
               IsSteadySwitch(s, x.track, t, spread)
    ensures GapsAreWithin(t, -spread - 1, Some(1))
  {
    WriteSegments(s, x.track, x.sample, c);
    if Completes(s, t) {
      WriteOverlap(s, before, x, c, spread);
      SteadyWriteOverlap(s, before, x, c, spread, t);
    }
    GapsStay(s, x.track, t, -spread - 1, Some(1));
  }

  /** Over every recording that has not failed, a file starts at most a second before the previous one ends, to within
      a nanosecond. */
  lemma {:induction false} FilesFollow(tracks: seq<Track>, inputs: seq<Input>, c: Settings)
    requires ValidInputs(tracks, inputs) && Fresh(tracks) && !Record(tracks, inputs, c).failed
    ensures GapsAreWithin(Record(tracks, inputs, c), -1_000_000_001, None)
    decreases |inputs|
  {
    if inputs != [] {
      var before, x := inputs[..|inputs| - 1], inputs[|inputs| - 1];
      assert inputs == before + [x];
      RecordSnoc(tracks, before, x, c);
      NotFailedBefore(tracks, inputs, c, |before|);
      FilesFollow(tracks, before, c);
      RecordingIsKnown(tracks, before, c);
      StepFollows(Record(tracks, before, c), before, x, c, Record(tracks, inputs, c));
    }
  }

  /** If it is steady, a file starts at most the spread before the previous one ends, and not after that. */
  lemma {:induction false} SteadyFilesFollow(tracks: seq<Track>, inputs: seq<Input>, c: Settings, spread: int)
    requires ValidInputs(tracks, inputs) && Fresh(tracks) && !Record(tracks, inputs, c).failed
    requires 0 <= spread <= 1_000_000_000 && IsSteady(tracks, inputs, c, spread)
    ensures GapsAreWithin(Record(tracks, inputs, c), -spread - 1, Some(1))
    decreases |inputs|
  {
    if inputs != [] {
      var before, x := inputs[..|inputs| - 1], inputs[|inputs| - 1];
      assert inputs == before + [x];
      RecordSnoc(tracks, before, x, c);
      NotFailedBefore(tracks, inputs, c, |before|);
      SteadyBefore(tracks, before, x, c, spread);
      SteadyFilesFollow(tracks, before, c, spread);
      RecordingIsKnown(tracks, before, c);
      LastStepIsSteady(tracks, before, x, c, spread);
      SteadyStepFollows(Record(tracks, before, c), before, x, c, Record(tracks, inputs, c), spread);
    }
  }

  lemma {:induction false} LastStepIsSteady(
    tracks: seq<Track>, before: seq<Input>, x: Input, c: Settings, spread: int)
    requires ValidInputs(tracks, before + [x]) && ValidInputs(tracks, before) && x.track < |tracks|
    requires IsSteadyAt(tracks, before + [x], c, spread, |before|)
    ensures var s, t := Record(tracks, before, c), Record(tracks, before + [x], c);
            Completes(s, t) && s.tracks[x.track].next.Some? && IsPending(t.tracks, x.track) ==>
              IsSteadySwitch(s, x.track, t, spread)
  {
    var all := before + [x];
    assert all[..|before|] == before && all[..|before| + 1] == all;
  }

  /** If it is steady, every file starts at one of the samples that were written. */
  lemma {:induction false} SteadyFilesStartAtSamples(
    tracks: seq<Track>, inputs: seq<Input>, c: Settings, spread: int)
    requires ValidInputs(tracks, inputs) && Fresh(tracks) && !Record(tracks, inputs, c).failed
    requires IsSteady(tracks, inputs, c, spread)
    ensures StartsAreRight(Record(tracks, inputs, c), false)
    decreases |inputs|
  {
    if inputs != [] {
      var before, x := inputs[..|inputs| - 1], inputs[|inputs| - 1];
      assert inputs == before + [x];
      RecordSnoc(tracks, before, x, c);
      NotFailedBefore(tracks, inputs, c, |before|);
      SteadyBefore(tracks, before, x, c, spread);
      SteadyFilesStartAtSamples(tracks, before, c, spread);
      RecordingIsKnown(tracks, before, c);
      var s, t := Record(tracks, before, c), Record(tracks, inputs, c);
      LastStepIsSteady(tracks, before, x, c, spread);
      WriteSegments(s, x.track, x.sample, c);
      WriteTracks(s, x.track, x.sample, c);
      WriteStarts(s, before, x.track, x.sample, c, t, false);
    }
  }
}
