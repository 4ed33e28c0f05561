/** When playback does not go back in time. Truncation moves each part and each segment by a few ticks, so that
    the last sample of a part can be played after the first one of the next part; this says exactly when that
    happens, and how far apart recorded samples must be for it never to happen. */
module PlaybackOrder {
  import opened Options
  import opened Rounding
  import RM = RecorderModel
  import RR = RecorderRuns
  import RT = RecorderTiming
  import opened Playback
  import opened RecordAndPlay

  /** A sample is never played later than its distance to the first one of its part says. */
  lemma {:induction false} PlayedNoLater(pt: RM.PartTrack, start: int, k: nat)
    requires k < |pt.samples| && RR.IsChain(pt.samples)
    ensures pt.baseTime + start <= PlayDTS(ToRun(pt), start, k) <= pt.baseTime + start +
            (pt.samples[k].dts - pt.samples[0].dts)
  {
    RT.DurationsTelescope(pt.samples, k);
    SameDurations(pt, k);
  }

  lemma {:induction false} PlayedInRun(run: Run, start: int, j: nat, k: nat)
    requires j <= k <= |run.entries|
    ensures PlayDTS(run, start, j) <= PlayDTS(run, start, k)
    decreases k
  {
    if j < k {
      PlayedInRun(run, start, j, k - 1);
    }
  }

  function LastOf(pt: RM.PartTrack): RM.Sample
    requires pt.samples != []
  {
    pt.samples[|pt.samples| - 1]
  }

  /** Where playback puts a part of a segment that begins with time stamp t, on the clock of the track. */
  function Place(t: int, segmentStart: int, firstStart: int, offset: int, rate: nat): int
    requires rate > 0
  {
    DurationGoToMp4(segmentStart - firstStart + offset, rate) +
    DurationGoToMp4(TimestampToDuration(t, rate) - segmentStart, rate)
  }

  /** Every sample of the first run is played no later than every one of the second. */
  predicate ArePlayedInOrder(r: Run, startR: int, s: Run, startS: int) {
    forall j: nat, k: nat :: j < |r.entries| && k < |s.entries| ==> PlayDTS(r, startR, j) <= PlayDTS(s, startS, k)
  }

  lemma {:induction false} InOrderIffBorderIs(r: Run, startR: int, s: Run, startS: int)
    requires r.entries != [] && s.entries != []
    ensures ArePlayedInOrder(r, startR, s, startS) <==>
            PlayDTS(r, startR, |r.entries| - 1) <= PlayDTS(s, startS, 0)
  {
    if PlayDTS(r, startR, |r.entries| - 1) <= PlayDTS(s, startS, 0) {
      forall j: nat, k: nat | j < |r.entries| && k < |s.entries|
        ensures PlayDTS(r, startR, j) <= PlayDTS(s, startS, k)
      {
        PlayedInRun(r, startR, j, |r.entries| - 1);
        PlayedInRun(s, startS, 0, k);
      }
    }
  }

  /** Two parts, of one file or of two, are played in order if and only if the first one does not last longer than
      the conversions to nanoseconds and back leave between their first samples. How long it lasts is what its
      time stamps say if their gaps fit into 32 bits. */
  lemma {:induction false} PartsInOrderIff(
    a: RM.PartTrack, b: RM.PartTrack, track: RM.Track, startA: int, startB: int, firstStart: int, offset: int)
    requires 0 < track.timeScale && IsRecordedTrack(a, track, startA) && IsRecordedTrack(b, track, startB)
    ensures var rate, n := track.timeScale, |a.samples| - 1;
            var t, u := a.samples[0].dts, b.samples[0].dts;
            var apart := Place(u, startB, firstStart, offset, rate) - Place(t, startA, firstStart, offset, rate);
            var inOrder := ArePlayedInOrder(ToRun(a), DurationGoToMp4(startA - firstStart + offset, rate),
                                            ToRun(b), DurationGoToMp4(startB - firstStart + offset, rate));
            && (inOrder <==> RT.SumDurations(a.samples, n) <= apart)
            && (RT.GapsFit(a.samples, n) ==> (inOrder <==> LastOf(a).dts - t <= apart))
  {
    var rate, n := track.timeScale, |a.samples| - 1;
    InOrderIffBorderIs(ToRun(a), DurationGoToMp4(startA - firstStart + offset, rate),
                       ToRun(b), DurationGoToMp4(startB - firstStart + offset, rate));
    SameDurations(a, n);
    SameDurations(b, 0);
    RT.DurationsTelescope(a.samples, n);
  }

  /** How many ticks two parts of a file can come too close to each other. */
  function PartSlack(a: RM.PartTrack, b: RM.PartTrack, rate: int): int
    requires a.samples != [] && b.samples != []
  {
    if LosesOneTick(a.samples[0].dts, b.samples[0].dts, rate) then 1 else 2
  }

  const FILE_SLACK: int := 4

  lemma {:induction false} PartsInOrder(
    a: RM.PartTrack, b: RM.PartTrack, track: RM.Track, segmentStart: int, start: int, j: nat, k: nat)
    requires 0 < track.timeScale <= SECOND && IsRecordedTrack(a, track, segmentStart) &&
             IsRecordedTrack(b, track, segmentStart)
    requires j < |a.samples| && k < |b.samples|
    requires b.samples[0].dts - LastOf(a).dts >= PartSlack(a, b, track.timeScale)
    ensures PlayDTS(ToRun(a), start, j) <= PlayDTS(ToRun(b), start, k)
  {
    PlayedNoLater(a, start, j);
    PlayedNoLater(b, start, k);
    RR.ChainIsOrdered(a.samples, j, |a.samples| - 1);
    BaseTimesApart(a.samples[0].dts, b.samples[0].dts, segmentStart, track.timeScale);
  }

  lemma {:induction false} CloseEnough(p: int, q: int, t: int, u: int, shift: int)
    requires SECOND * (p - t) - shift < 2 * SECOND && -3 * SECOND < SECOND * (q - u) - shift
    requires u - t >= FILE_SLACK
    ensures p <= q
  {
  }

  lemma {:induction false} FilesInOrder(
    a: RM.PartTrack, b: RM.PartTrack, track: RM.Track, startA: int, startB: int, firstStart: int, startOffset: int,
    j: nat, k: nat)
    requires 0 < track.timeScale <= SECOND && IsRecordedTrack(a, track, startA) && IsRecordedTrack(b, track, startB)
    requires j < |a.samples| && k < |b.samples|
    requires b.samples[0].dts - LastOf(a).dts >= FILE_SLACK
    ensures PlayDTS(ToRun(a), DurationGoToMp4(startA - firstStart + startOffset, track.timeScale), j) <=
            PlayDTS(ToRun(b), DurationGoToMp4(startB - firstStart + startOffset, track.timeScale), k)
  {
    var rate := track.timeScale;
    var p, q := DurationGoToMp4(startA - firstStart + startOffset, rate),
      DurationGoToMp4(startB - firstStart + startOffset, rate);
    PlayedNoLater(a, p, j);
    PlayedNoLater(b, q, k);
    RR.ChainIsOrdered(a.samples, j, |a.samples| - 1);
    FirstSampleError(a.samples[0].dts, startA, firstStart, startOffset, rate);
    FirstSampleError(b.samples[0].dts, startB, firstStart, startOffset, rate);
    var t, u := a.samples[0].dts, b.samples[0].dts;
    var d := a.samples[j].dts - t;
    CloseEnough(a.baseTime + p + d, b.baseTime + q, t + d, u, (startOffset - firstStart) * rate);
  }

  /** The track has samples in both parts, and the second part follows the first one. */
  predicate AreSuccessive(files: seq<RM.File>, i: nat, n: nat, m: nat, l: nat, k: nat) {
    && n <= l < |files| && m < |files[n].parts| && k < |files[l].parts| && (n < l || m < k)
    && i in files[n].parts[m].tracks && i in files[l].parts[k].tracks
    && files[n].parts[m].tracks[i].samples != [] && files[l].parts[k].tracks[i].samples != []
  }

  predicate AreSpaced(files: seq<RM.File>, i: nat, rate: int, n: nat, m: nat, l: nat, k: nat)
    requires AreSuccessive(files, i, n, m, l, k)
  {
    var a, b := files[n].parts[m].tracks[i], files[l].parts[k].tracks[i];
    b.samples[0].dts - LastOf(a).dts >= if n < l then FILE_SLACK else PartSlack(a, b, rate)
  }

  /** From part to part of a file a track goes on by a tick, or two for mixed times of fast clocks, and from
      file to file by four. */
  ghost predicate IsWellSpaced(files: seq<RM.File>, i: nat, rate: int) {
    forall n: nat, m: nat, l: nat, k: nat {:trigger AreSuccessive(files, i, n, m, l, k)} ::
      AreSuccessive(files, i, n, m, l, k) ==> AreSpaced(files, i, rate, n, m, l, k)
  }
}
